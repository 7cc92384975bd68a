/** What becomes of callbacks (src/rcu.cpp): none is lost or runs twice, an update invokes those whose batch is
    complete, and every batch that somebody waits for is asked for and has a CPU that will bring it forward. */
module RcuProgress {
  import opened Rcu

  // ----- histories, read off a run

  /** Step a of CPU k is the invocation of a callback. */
  predicate Invokes(s: System, k: nat, a: Action) {
    Enabled(s, k, a) && a == Advance && s.cpus[k].pc == Invoke && s.cpus[k].done != []
  }

  /** The callbacks passed to Rcu::call on CPU k, in order. */
  function Called(n: nat, run: seq<(nat, Action)>, k: nat): seq<Callback> {
    if run == [] then []
    else
      var s := After(n, run[..|run| - 1]);
      var (i, a) := run[|run| - 1];
      Called(n, run[..|run| - 1], k) + if i == k && Enabled(s, i, a) && a.Call? then [Callback(a.id, Begun(s))] else []
  }

  /** Those that CPU k has invoked, in order. */
  function Invoked(n: nat, run: seq<(nat, Action)>, k: nat): seq<Callback> {
    if run == [] then []
    else
      var s := After(n, run[..|run| - 1]);
      var (i, a) := run[|run| - 1];
      Invoked(n, run[..|run| - 1], k) + if i == k && Invokes(s, i, a) then [s.cpus[i].done[0]] else []
  }

  function Next(s: System, k: nat, a: Action): System { if Enabled(s, k, a) then Do(s, k, a) else s }

  lemma OneMore(n: nat, run: seq<(nat, Action)>, i: nat, a: Action, k: nat)
    ensures var s, r := After(n, run), run + [(i, a)];
            && After(n, r) == Next(s, i, a)
            && Called(n, r, k) == Called(n, run, k) +
                 (if i == k && Enabled(s, i, a) && a.Call? then [Callback(a.id, Begun(s))] else [])
            && Invoked(n, r, k) == Invoked(n, run, k) + (if i == k && Invokes(s, i, a) then [s.cpus[i].done[0]] else [])
  {
    assert (run + [(i, a)])[..|run|] == run;
  }

  // ----- no callback is lost

  /** The callbacks that CPU k still has to invoke. */
  function Waiting(s: System, k: nat): seq<Callback>
    requires k < |s.cpus|
  {
    s.cpus[k].done + s.cpus[k].curr + s.cpus[k].next
  }

  lemma OthersWait(s: System, i: nat, a: Action, k: nat)
    requires Enabled(s, i, a) && k < |s.cpus| && i != k
    ensures |Do(s, i, a).cpus| == |s.cpus| && Do(s, i, a).cpus[k] == s.cpus[k]
  {
  }

  lemma StepWaits(s: System, k: nat, a: Action)
    requires Enabled(s, k, a)
    ensures var t := Do(s, k, a);
            && |t.cpus| == |s.cpus|
            && (if a.Call? then Waiting(t, k) == Waiting(s, k) + [Callback(a.id, Begun(s))]
                else if Invokes(s, k, a) then Waiting(s, k) == [s.cpus[k].done[0]] + Waiting(t, k)
                else Waiting(t, k) == Waiting(s, k))
  {
    if a == Advance { AdvanceWaits(s, k); }
  }

  lemma AdvanceWaits(s: System, k: nat)
    requires k < |s.cpus|
    ensures var t := Continue(s, k);
            && |t.cpus| == |s.cpus|
            && (if s.cpus[k].pc == Invoke && s.cpus[k].done != [] then
                  Waiting(s, k) == [s.cpus[k].done[0]] + Waiting(t, k)
                else Waiting(t, k) == Waiting(s, k))
  {
    var c, d := s.cpus[k], Continue(s, k).cpus[k];
    if c.pc == Check || c.pc == Shift || c.pc == Invoke {
      ListsMove(c.done, c.curr, c.next);
    } else {
      assert d.done == c.done && d.curr == c.curr && d.next == c.next;
    }
  }

  /** The three lists after a batch is complete, after the waiting list has become current, and after an invocation. */
  lemma ListsMove(done: seq<Callback>, curr: seq<Callback>, next: seq<Callback>)
    ensures (done + curr) + [] + next == done + curr + next
    ensures curr == [] ==> done + next + [] == done + curr + next
    ensures done != [] ==> [done[0]] + (done[1..] + curr + next) == done + curr + next
  {
  }

  lemma StepLosesNone(s: System, i: nat, a: Action, k: nat, called: seq<Callback>, invoked: seq<Callback>)
    requires k < |s.cpus| && called == invoked + Waiting(s, k)
    ensures var t := Next(s, i, a);
            && |t.cpus| == |s.cpus|
            && called + (if i == k && Enabled(s, i, a) && a.Call? then [Callback(a.id, Begun(s))] else []) ==
               invoked + (if i == k && Invokes(s, i, a) then [s.cpus[i].done[0]] else []) + Waiting(t, k)
  {
    if Enabled(s, i, a) {
      if i == k { StepWaits(s, k, a); } else { OthersWait(s, i, a, k); }
    }
  }

  /** Every callback passed to Rcu::call has been invoked or is still waiting, once and in order. */
  lemma {:induction false} NoneLost(n: nat, run: seq<(nat, Action)>, k: nat)
    requires k < n
    ensures |After(n, run).cpus| == n
    ensures Called(n, run, k) == Invoked(n, run, k) + Waiting(After(n, run), k)
    decreases |run|
  {
    if run != [] {
      var m := |run| - 1;
      NoneLost(n, run[..m], k);
      OneMore(n, run[..m], run[m].0, run[m].1, k);
      assert run == run[..m] + [(run[m].0, run[m].1)];
      StepLosesNone(After(n, run[..m]), run[m].0, run[m].1, k, Called(n, run[..m], k), Invoked(n, run[..m], k));
    }
  }

  // ----- an update invokes what is due

  /** A batch that is complete stays complete. */
  lemma CompleteKept(s: System, i: nat, a: Action, b: nat)
    requires Inv(s) && Enabled(s, i, a) && Complete(s.state, b)
    ensures Complete(Do(s, i, a).state, b)
  {
    assert CpuOk(s, i);
    var c := s.cpus[i];
    if a == Advance && c.pc.Swap? && s.state == c.pc.v { FlagGrows(s.state, c.pc.f, b); }
    if a == Advance && c.pc.Store? { StoreGrows(s.state, b); }
  }

  lemma FlagGrows(v: nat, f: Flag, b: nat)
    requires !HasFlag(v, f) && Complete(v, b)
    ensures Complete(v + Bit(f), b)
  {
    FlagSet(v, f);
  }

  lemma StoreGrows(v: nat, b: nat)
    requires HasFlag(v, CMP) && HasFlag(v, PND) && Complete(v, b)
    ensures Complete(v + 1, b)
  {
    Carry(v);
  }

  /** Somewhere in Rcu::update behind the test for a complete batch. */
  predicate BehindCheck(p: Pc) {
    || p == Shift || p == Invoke
    || ((p.Read? || p.Swap? || p.Reset? || p.Load? || p.Store?) && p.f == PND)
  }

  /** CPU k has invoked `count` callbacks, and the first `due` ones are invoked by the end of its update. */
  predicate Due(s: System, k: nat, count: nat, due: nat)
    requires k < |s.cpus|
  {
    var c := s.cpus[k];
    || due <= count
    || (BehindCheck(c.pc) && due <= count + |c.done|)
    || ((c.pc == Refresh || c.pc == Check) && due <= count + |c.done| + |c.curr| && Complete(s.state, c.cBatch))
  }

  lemma DueKept(s: System, i: nat, a: Action, k: nat, count: nat, due: nat)
    requires Inv(s) && Enabled(s, i, a) && k < |s.cpus| && Due(s, k, count, due)
    ensures var t := Do(s, i, a);
            |t.cpus| == |s.cpus| && Due(t, k, count + if i == k && Invokes(s, i, a) then 1 else 0, due)
  {
    var c := s.cpus[k];
    if (c.pc == Refresh || c.pc == Check) && Complete(s.state, c.cBatch) { CompleteKept(s, i, a, c.cBatch); }
    if i != k { OthersWait(s, i, a, k); }
  }

  lemma DueNext(n: nat, run: seq<(nat, Action)>, i: nat, a: Action, k: nat, due: nat)
    requires k < n && |After(n, run).cpus| == n && Due(After(n, run), k, |Invoked(n, run, k)|, due)
    ensures var r := run + [(i, a)]; |After(n, r).cpus| == n && Due(After(n, r), k, |Invoked(n, r, k)|, due)
  {
    RunInv(n, run);
    OneMore(n, run, i, a, k);
    if Enabled(After(n, run), i, a) { DueKept(After(n, run), i, a, k, |Invoked(n, run, k)|, due); }
  }

  lemma {:induction false} DueAlong(n: nat, run: seq<(nat, Action)>, more: seq<(nat, Action)>, k: nat, due: nat)
    requires k < n && |After(n, run).cpus| == n && Due(After(n, run), k, |Invoked(n, run, k)|, due)
    ensures |After(n, run + more).cpus| == n && Due(After(n, run + more), k, |Invoked(n, run + more, k)|, due)
    decreases |more|
  {
    if more == [] {
      assert run + more == run;
    } else {
      var m := |more| - 1;
      DueAlong(n, run, more[..m], k, due);
      DueNext(n, run + more[..m], more[m].0, more[m].1, k, due);
      assert run + more == run + more[..m] + [(more[m].0, more[m].1)];
    }
  }

  /** Once the batch that the current list waits for is complete, an update of that CPU has invoked all of it, and all
      that was called before, by the time it returns, whatever the other CPUs do meanwhile. */
  lemma UpdateInvokes(n: nat, run: seq<(nat, Action)>, more: seq<(nat, Action)>, k: nat)
    requires k < |After(n, run).cpus| && After(n, run).cpus[k].pc == Idle
    requires var c := After(n, run).cpus[k]; c.curr != [] && Complete(After(n, run).state, c.cBatch)
    ensures var c := After(n, run).cpus[k];
            var due := Invoked(n, run, k) + c.done + c.curr;
            var later := run + [(k, Update)] + more;
            && |After(n, later).cpus| == |After(n, run).cpus|
            && (After(n, later).cpus[k].pc == Idle ==> due <= Invoked(n, later, k))
  {
    SameCpus(n, run);
    var s := After(n, run);
    var due := Invoked(n, run, k) + s.cpus[k].done + s.cpus[k].curr;
    var r := run + [(k, Update)];
    OneMore(n, run, k, Update, k);
    UpdateStarts(s, k, |Invoked(n, run, k)|);
    DueAlong(n, r, more, k, |due|);
    if After(n, r + more).cpus[k].pc == Idle {
      assert run + ([(k, Update)] + more) == r + more;
      FirstInvoked(n, run, [(k, Update)] + more, r + more, k, due);
    }
  }

  lemma UpdateStarts(s: System, k: nat, count: nat)
    requires k < |s.cpus| && s.cpus[k].pc == Idle && Complete(s.state, s.cpus[k].cBatch)
    ensures var t := Next(s, k, Update);
            |t.cpus| == |s.cpus| && Due(t, k, count, count + |s.cpus[k].done| + |s.cpus[k].curr|)
    ensures !Invokes(s, k, Update)
  {
  }

  lemma {:induction false} SameCpus(n: nat, run: seq<(nat, Action)>)
    ensures |After(n, run).cpus| == n
    decreases |run|
  {
    if run != [] {
      var m := |run| - 1;
      SameCpus(n, run[..m]);
      StepSize(After(n, run[..m]), run[m].0, run[m].1);
    }
  }

  lemma StepSize(s: System, k: nat, a: Action)
    ensures |Next(s, k, a).cpus| == |s.cpus|
  {
  }

  /** The callbacks called first are those invoked first. */
  lemma FirstInvoked(n: nat, run: seq<(nat, Action)>, more: seq<(nat, Action)>, later: seq<(nat, Action)>, k: nat,
                     due: seq<Callback>)
    requires k < n && |After(n, run).cpus| == n && later == run + more && |due| <= |Invoked(n, later, k)|
    requires due == Invoked(n, run, k) + After(n, run).cpus[k].done + After(n, run).cpus[k].curr
    ensures due <= Invoked(n, later, k)
  {
    NoneLost(n, run, k);
    NoneLost(n, later, k);
    CalledGrows(n, run, more, k);
    var c := After(n, run).cpus[k];
    Prefixes(Called(n, run, k), Called(n, later, k), Invoked(n, run, k), c.done, c.curr, c.next, Invoked(n, later, k),
             Waiting(After(n, later), k));
  }

  lemma Prefixes(c: seq<Callback>, d: seq<Callback>, inv: seq<Callback>, done: seq<Callback>, curr: seq<Callback>,
                 next: seq<Callback>, later: seq<Callback>, wait: seq<Callback>)
    requires c <= d && c == inv + (done + curr + next) && d == later + wait && |inv + done + curr| <= |later|
    ensures inv + done + curr <= later
  {
    var due := inv + done + curr;
    assert c == due + next;
    forall i | 0 <= i < |due| ensures due[i] == later[i] {
      assert due[i] == c[i] == d[i];
    }
  }

  lemma {:induction false} CalledGrows(n: nat, run: seq<(nat, Action)>, more: seq<(nat, Action)>, k: nat)
    ensures Called(n, run, k) <= Called(n, run + more, k)
    decreases |more|
  {
    if more == [] {
      assert run + more == run;
    } else {
      var m := |more| - 1;
      CalledGrows(n, run, more[..m], k);
      OneMore(n, run + more[..m], more[m].0, more[m].1, k);
      assert run + more == run + more[..m] + [(more[m].0, more[m].1)];
    }
  }

  // ----- an update puts forward what waits

  /** CPU k has invoked `count` callbacks, and the first `all` ones are invoked or wait for a batch by the end of its
      update. */
  predicate Moves(s: System, k: nat, count: nat, all: nat)
    requires k < |s.cpus|
  {
    var c := s.cpus[k];
    || all <= count + |c.done| + |c.curr|
    || (c.pc == Shift && c.curr == [] && all <= count + |c.done| + |c.next|)
    || ((c.pc == Refresh || c.pc == Check) && (c.curr == [] || Complete(s.state, c.cBatch))
        && all <= count + |c.done| + |c.curr| + |c.next|)
  }

  lemma MovesKept(s: System, i: nat, a: Action, k: nat, count: nat, all: nat)
    requires Inv(s) && Enabled(s, i, a) && k < |s.cpus| && Moves(s, k, count, all)
    ensures var t := Do(s, i, a);
            |t.cpus| == |s.cpus| && Moves(t, k, count + if i == k && Invokes(s, i, a) then 1 else 0, all)
  {
    var c := s.cpus[k];
    if (c.pc == Refresh || c.pc == Check) && Complete(s.state, c.cBatch) { CompleteKept(s, i, a, c.cBatch); }
    if i != k { OthersWait(s, i, a, k); }
  }

  lemma MovesNext(n: nat, run: seq<(nat, Action)>, i: nat, a: Action, k: nat, all: nat)
    requires k < n && |After(n, run).cpus| == n && Moves(After(n, run), k, |Invoked(n, run, k)|, all)
    ensures var r := run + [(i, a)]; |After(n, r).cpus| == n && Moves(After(n, r), k, |Invoked(n, r, k)|, all)
  {
    RunInv(n, run);
    OneMore(n, run, i, a, k);
    if Enabled(After(n, run), i, a) { MovesKept(After(n, run), i, a, k, |Invoked(n, run, k)|, all); }
  }

  lemma {:induction false} MovesAlong(n: nat, run: seq<(nat, Action)>, more: seq<(nat, Action)>, k: nat, all: nat)
    requires k < n && |After(n, run).cpus| == n && Moves(After(n, run), k, |Invoked(n, run, k)|, all)
    ensures |After(n, run + more).cpus| == n && Moves(After(n, run + more), k, |Invoked(n, run + more, k)|, all)
    decreases |more|
  {
    if more == [] {
      assert run + more == run;
    } else {
      var m := |more| - 1;
      MovesAlong(n, run, more[..m], k, all);
      MovesNext(n, run + more[..m], more[m].0, more[m].1, k, all);
      assert run + more == run + more[..m] + [(more[m].0, more[m].1)];
    }
  }

  /** Unless callbacks still wait for a batch that is not complete, an update of a CPU has put all that were called
      before forward to wait for the next batch, or has invoked them, by the time it returns. */
  lemma UpdatePromotes(n: nat, run: seq<(nat, Action)>, more: seq<(nat, Action)>, k: nat)
    requires k < |After(n, run).cpus| && After(n, run).cpus[k].pc == Idle
    requires var c := After(n, run).cpus[k]; c.curr == [] || Complete(After(n, run).state, c.cBatch)
    ensures var later := run + [(k, Update)] + more;
            var t := After(n, later);
            && |t.cpus| == |After(n, run).cpus|
            && (t.cpus[k].pc == Idle ==>
                  |Called(n, run, k)| <= |Invoked(n, later, k)| + |t.cpus[k].done| + |t.cpus[k].curr|)
  {
    SameCpus(n, run);
    var r := run + [(k, Update)];
    NoneLost(n, run, k);
    OneMore(n, run, k, Update, k);
    PromotionStarts(After(n, run), k, |Invoked(n, run, k)|);
    MovesAlong(n, r, more, k, |Called(n, run, k)|);
  }

  lemma PromotionStarts(s: System, k: nat, count: nat)
    requires k < |s.cpus| && s.cpus[k].pc == Idle && (s.cpus[k].curr == [] || Complete(s.state, s.cpus[k].cBatch))
    ensures var t := Next(s, k, Update);
            |t.cpus| == |s.cpus| && Moves(t, k, count, count + |Waiting(s, k)|)
    ensures !Invokes(s, k, Update)
  {
  }

  /** A CPU that owes a quiet call pays it: a CPU that has not noticed the batch does so at the beginning of an update,
      and one that has noticed it owes no more after a quiet call. */
  lemma DebtIsPaid(n: nat, run: seq<(nat, Action)>, k: nat)
    requires k < |After(n, run).cpus| && After(n, run).cpus[k].pc == Idle && Owes(After(n, run), k)
    ensures var s := After(n, run);
            if s.cpus[k].hazard then
              var t := Next(Next(s, k, QuietBegin), k, Advance);
              |t.cpus| == |s.cpus| && !Owes(t, k) && t.state == s.state && t.count == s.count - 1
            else
              var t := Next(Next(s, k, Update), k, Advance);
              |t.cpus| == |s.cpus| && t.cpus[k].hazard && t.cpus[k].lBatch == Batch(t.state)
  {
    RunInv(n, run);
    assert CpuOk(After(n, run), k);
  }

  // ----- every batch that is waited for comes

  /** In the loop of Rcu::start_batch that asks for another batch. */
  predicate Asking(p: Pc) { (p.Read? || p.Swap?) && p.f == PND }

  /** The batch that CPU j waits for runs, is over, is asked for, or is just being asked for. */
  predicate Asked(s: System, j: nat)
    requires j < |s.cpus|
  {
    var c := s.cpus[j];
    c.curr != [] ==> Asking(c.pc) || c.cBatch <= Batch(s.state) || HasFlag(s.state, PND)
  }

  lemma OwnAsked(s: System, k: nat, a: Action)
    requires Inv(s) && Enabled(s, k, a) && Asked(s, k)
    ensures |Do(s, k, a).cpus| == |s.cpus| && Asked(Do(s, k, a), k)
  {
    assert CpuOk(s, k);
    var c := s.cpus[k];
    if a == Advance && c.pc.Swap? && s.state == c.pc.v { FlagSet(s.state, c.pc.f); }
    if a == Advance && c.pc.Store? { Carry(s.state); }
  }

  lemma OtherAsked(s: System, i: nat, a: Action, j: nat)
    requires Inv(s) && Enabled(s, i, a) && j < |s.cpus| && j != i && Asked(s, j)
    ensures |Do(s, i, a).cpus| == |s.cpus| && Asked(Do(s, i, a), j)
  {
    OthersWait(s, i, a, j);
    assert CpuOk(s, i) && CpuOk(s, j);
    var c := s.cpus[i];
    if a == Advance && c.pc.Swap? && s.state == c.pc.v { FlagSet(s.state, c.pc.f); }
    if a == Advance && c.pc.Store? { Carry(s.state); }
  }

  ghost predicate SomeoneCompletes(s: System) { exists i :: 0 <= i < |s.cpus| && Completing(s.cpus[i]) }

  ghost predicate SomeoneAdvances(s: System) { exists i :: 0 <= i < |s.cpus| && Advancing(s.cpus[i]) }

  /** A batch that runs has a CPU that still owes a quiet call or one that is about to declare it complete; a complete
      batch behind which another one is wanted has a CPU that is about to start that one. */
  ghost predicate Carried(s: System) {
    && (|s.cpus| > 0 && !HasFlag(s.state, CMP) ==> Owing(s) != {} || SomeoneCompletes(s))
    && (HasFlag(s.state, CMP) && HasFlag(s.state, PND) ==> SomeoneAdvances(s))
  }

  /** A step that leaves the word alone and what everybody owes. */
  lemma QuietlyCarried(s: System, t: System, k: nat)
    requires Carried(s) && k < |s.cpus| == |t.cpus| && t.state == s.state && Owing(t) == Owing(s)
    requires forall i :: 0 <= i < |s.cpus| && i != k ==> t.cpus[i] == s.cpus[i]
    requires Completing(s.cpus[k]) ==> Completing(t.cpus[k])
    requires Advancing(s.cpus[k]) ==> Advancing(t.cpus[k])
    ensures Carried(t)
  {
    if SomeoneCompletes(s) {
      var i :| 0 <= i < |s.cpus| && Completing(s.cpus[i]);
      assert Completing(t.cpus[i]);
    }
    if SomeoneAdvances(s) {
      var i :| 0 <= i < |s.cpus| && Advancing(s.cpus[i]);
      assert Advancing(t.cpus[i]);
    }
  }

  lemma PrivateCarried(s: System, k: nat, a: Action)
    requires Inv(s) && Carried(s) && Enabled(s, k, a) && Private(s, Do(s, k, a), k)
    ensures Carried(Do(s, k, a))
  {
    assert CpuOk(s, k);
    PrivateOwing(s, Do(s, k, a), k);
    QuietlyCarried(s, Do(s, k, a), k);
  }

  lemma ResetCarried(s: System, k: nat)
    requires Inv(s) && Carried(s) && k < |s.cpus| && s.cpus[k].pc.Reset?
    ensures Carried(Continue(s, k))
  {
    var t := Continue(s, k);
    assert forall i :: 0 <= i < |s.cpus| ==> Owes(t, i) == Owes(s, i);
    assert Owing(t) == Owing(s);
    QuietlyCarried(s, t, k);
  }

  lemma QuietCarried(s: System, k: nat)
    requires Inv(s) && Carried(s) && k < |s.cpus| && s.cpus[k].pc == Quiet
    ensures Carried(Continue(s, k))
  {
    var t := Continue(s, k);
    assert CpuOk(s, k);
    QuietOwing(s, k);
    if Owing(t) == {} { assert Completing(t.cpus[k]); }
  }

  lemma SwapCarried(s: System, k: nat)
    requires Inv(s) && Carried(s) && k < |s.cpus| && s.cpus[k].pc.Swap? && s.state == s.cpus[k].pc.v
    ensures Carried(Continue(s, k))
  {
    var t, f := Continue(s, k), s.cpus[k].pc.f;
    assert CpuOk(s, k);
    FlagSet(s.state, f);
    SwapOwing(s, k);
    if HasFlag(s.state, Other(f)) { assert Advancing(t.cpus[k]); }
    if f == PND && SomeoneCompletes(s) {
      var i :| 0 <= i < |s.cpus| && Completing(s.cpus[i]);
      assert Completing(t.cpus[i]);
    }
  }

  lemma StoreCarried(s: System, k: nat)
    requires Inv(s) && Carried(s) && k < |s.cpus| && s.cpus[k].pc.Store?
    ensures Carried(Continue(s, k))
  {
    StoreOwing(s, k);
  }

  lemma StepCarried(s: System, k: nat, a: Action)
    requires Inv(s) && Carried(s) && Enabled(s, k, a)
    ensures Carried(Do(s, k, a))
  {
    var c := s.cpus[k];
    assert CpuOk(s, k);
    if a == Advance && c.pc == Quiet {
      QuietCarried(s, k);
    } else if a == Advance && c.pc.Reset? {
      ResetCarried(s, k);
    } else if a == Advance && c.pc.Store? {
      StoreCarried(s, k);
    } else if a == Advance && c.pc.Swap? && s.state == c.pc.v {
      SwapCarried(s, k);
    } else {
      StepPrivate(s, k, a);
      PrivateCarried(s, k, a);
    }
  }

  lemma StepPrivate(s: System, k: nat, a: Action)
    requires Inv(s) && Enabled(s, k, a)
    requires a == Advance ==> var p := s.cpus[k].pc;
             p != Quiet && !p.Reset? && !p.Store? && (p.Swap? ==> s.state != p.v)
    ensures Private(s, Do(s, k, a), k)
  {
    assert CpuOk(s, k);
  }

  /** In every reachable state every batch that somebody waits for has been asked for, and some CPU is bound to bring
      the current batch to its end or to start the next one: nothing hangs. */
  lemma {:induction false} NothingHangs(n: nat, run: seq<(nat, Action)>)
    ensures var s := After(n, run); Carried(s) && forall j: nat | j < |s.cpus| :: Asked(s, j)
    decreases |run|
  {
    if run != [] {
      var m := |run| - 1;
      NothingHangs(n, run[..m]);
      RunInv(n, run[..m]);
      var s, i, a := After(n, run[..m]), run[m].0, run[m].1;
      OneMore(n, run[..m], i, a, 0);
      assert run == run[..m] + [(i, a)];
      if Enabled(s, i, a) {
        StepCarried(s, i, a);
        StepSize(s, i, a);
        forall j: nat | j < |s.cpus| ensures Asked(Do(s, i, a), j) {
          if j == i { OwnAsked(s, i, a); } else { OtherAsked(s, i, a, j); }
        }
      }
    }
  }
}
