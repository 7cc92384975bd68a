/** Grace periods of src/rcu.cpp and include/rcu.hpp as interleaved steps of any number of CPUs, one shared access per
    step.  The word `state` holds a batch number and two flags; `count` is shared; everything else is CPU-local. */
module Rcu {
  import Bits
  import opened Machine

  /** Bit 0 of `state` says that the current batch is complete, bit 1 that another one is wanted. */
  datatype Flag = CMP | PND

  function Bit(f: Flag): nat { if f == CMP then 1 else 2 }

  function Batch(st: nat): nat { st / 4 }

  predicate HasFlag(st: nat, f: Flag) { if f == CMP then st % 2 == 1 else st / 2 % 2 == 1 }

  function Other(f: Flag): Flag { if f == CMP then PND else CMP }

  /** Rcu::complete */
  predicate Complete(st: nat, b: nat) { (if HasFlag(st, PND) then st - 2 else st) > 4 * b }

  /** Where a CPU is. `Read` to `Store` are the shared accesses of Rcu::start_batch. */
  datatype Pc = Idle
    | Refresh | Check | Shift | Invoke            // Rcu::update
    | Quiet                                       // Rcu::quiet between the hazard flag and the counter
    | Read(f: Flag) | Swap(f: Flag, v: nat) | Reset(f: Flag) | Load(f: Flag) | Store(f: Flag, v: nat)

  /** A queued callback; `at` is how many quiet calls each CPU had begun when it was passed to Rcu::call. */
  datatype Callback = Callback(id: nat, at: seq<nat>)

  datatype Cpu = Cpu(pc: Pc, hazard: bool, lBatch: nat, cBatch: nat,
                     next: seq<Callback>, curr: seq<Callback>, done: seq<Callback>, begun: nat, ended: nat)

  datatype System = System(state: nat, count: int, cpus: seq<Cpu>)

  datatype Action = Call(id: nat) | Update | QuietBegin | Advance

  /** Rcu::update returns to invoking callbacks, Rcu::quiet to its caller. */
  function Return(f: Flag): Pc { if f == PND then Invoke else Idle }

  function Begun(s: System): seq<nat> { seq(|s.cpus|, i requires 0 <= i < |s.cpus| => s.cpus[i].begun) }

  predicate Enabled(s: System, k: nat, a: Action) {
    && k < |s.cpus|
    && match a
       case Call(_) => s.cpus[k].pc == Idle || s.cpus[k].pc == Invoke
       case Update => s.cpus[k].pc == Idle
       case QuietBegin => s.cpus[k].pc == Idle && s.cpus[k].hazard
       case Advance => s.cpus[k].pc != Idle
  }

  function Set(s: System, k: nat, c: Cpu): System
    requires k < |s.cpus|
  {
    s.(cpus := s.cpus[k := c])
  }

  /** One step of CPU k. */
  function Do(s: System, k: nat, a: Action): System
    requires Enabled(s, k, a)
  {
    var c := s.cpus[k];
    match a
    case Call(id) => Set(s, k, c.(next := c.next + [Callback(id, Begun(s))]))
    case Update => Set(s, k, c.(pc := if c.lBatch != Batch(s.state) then Refresh else Check))
    case QuietBegin => Set(s, k, c.(pc := Quiet, hazard := false, begun := c.begun + 1))
    case Advance => Continue(s, k)
  }

  function Continue(s: System, k: nat): System
    requires k < |s.cpus|
  {
    var c := s.cpus[k];
    match c.pc
    case Idle => s
    case Refresh => Set(s, k, c.(pc := Check, lBatch := Batch(s.state), hazard := true))
    case Check =>
      if c.curr != [] && Complete(s.state, c.cBatch)
      then Set(s, k, c.(pc := Shift, done := c.done + c.curr, curr := []))
      else Set(s, k, c.(pc := Shift))
    case Shift =>
      if c.curr == [] && c.next != []
      then Set(s, k, c.(pc := Read(PND), curr := c.next, next := [], cBatch := c.lBatch + 1))
      else Set(s, k, c.(pc := Invoke))
    case Invoke =>
      if c.done != [] then Set(s, k, c.(done := c.done[1..])) else Set(s, k, c.(pc := Idle))
    case Quiet =>
      Set(s.(count := s.count - 1), k, c.(pc := if s.count - 1 == 0 then Read(CMP) else Idle, ended := c.ended + 1))
    case Read(f) =>
      if Batch(s.state) != c.lBatch || HasFlag(s.state, f) then Set(s, k, c.(pc := Return(f)))
      else Set(s, k, c.(pc := Swap(f, s.state)))
    case Swap(f, v) =>
      if s.state != v then Set(s, k, c.(pc := Read(f)))
      else Set(s.(state := v + Bit(f)), k, c.(pc := if HasFlag(v, Other(f)) then Reset(f) else Return(f)))
    case Reset(f) => Set(s.(count := |s.cpus|), k, c.(pc := Load(f)))
    case Load(f) => Set(s, k, c.(pc := Store(f, s.state)))
    case Store(f, v) => Set(s.(state := v + 1), k, c.(pc := Return(f)))
  }

  // ----- runs

  function Start(n: nat): System { System(1, 0, seq(n, i => Cpu(Idle, false, 0, 0, [], [], [], 0, 0))) }

  /** The states of a run; a step that is not enabled is skipped. */
  function After(n: nat, run: seq<(nat, Action)>): System {
    if run == [] then Start(n)
    else
      var s := After(n, run[..|run| - 1]);
      var (k, a) := run[|run| - 1];
      if Enabled(s, k, a) then Do(s, k, a) else s
  }

  // ----- the invariant

  /** CPU i has not yet decremented `count` for the current batch. */
  predicate Owes(s: System, i: nat)
    requires i < |s.cpus|
  {
    var c := s.cpus[i];
    c.lBatch < Batch(s.state) || c.hazard || c.pc == Quiet
  }

  ghost function Owing(s: System): set<nat> { set i | 0 <= i < |s.cpus| && Owes(s, i) }

  predicate Advancing(c: Cpu) { c.pc.Reset? || c.pc.Load? || c.pc.Store? }

  predicate Completing(c: Cpu) { c.pc == Read(CMP) || (c.pc.Swap? && c.pc.f == CMP) }

  /** Where CPU i stands relative to the current batch. */
  ghost predicate CpuOk(s: System, i: nat)
    requires i < |s.cpus|
  {
    var c := s.cpus[i];
    && c.lBatch <= Batch(s.state) <= c.lBatch + 1
    && c.begun == c.ended + (if c.pc == Quiet then 1 else 0)
    && (c.hazard || c.pc == Quiet ==> c.lBatch == Batch(s.state))
    && (c.pc == Quiet ==> !c.hazard) && (c.pc == Refresh ==> c.lBatch < Batch(s.state))
    && (Completing(c) ==> c.lBatch == Batch(s.state) && !HasFlag(s.state, CMP) && Owing(s) == {})
    && (Advancing(c) ==> HasFlag(s.state, CMP) && HasFlag(s.state, PND))
    && (c.pc.Store? ==> c.pc.v == s.state)
    && (c.pc.Swap? ==> !HasFlag(c.pc.v, c.pc.f) && Batch(c.pc.v) == c.lBatch)
    && (HasFlag(s.state, CMP) ==> !Owes(s, i))
    && (c.curr != [] ==> c.cBatch <= c.lBatch + 1 && c.lBatch <= c.cBatch + (if c.pc == Check then 1 else 0))
  }

  /** All CPUs have finished a quiet call that began after the callback was queued. */
  predicate Elapsed(s: System, e: Callback) {
    |e.at| == |s.cpus| && forall j :: 0 <= j < |s.cpus| ==> e.at[j] < s.cpus[j].ended
  }

  /** A callback that waits for batch b: once that batch runs, a CPU that still owes has not begun, and a CPU that does
      not owe has finished, a quiet call since the callback was queued. */
  ghost predicate Waits(s: System, e: Callback, b: nat) {
    && |e.at| == |s.cpus|
    && forall j :: 0 <= j < |s.cpus| ==>
         && e.at[j] <= s.cpus[j].begun
         && (Batch(s.state) == b ==> e.at[j] <= s.cpus[j].ended && (Owes(s, j) || e.at[j] < s.cpus[j].ended))
         && (Batch(s.state) > b ==> e.at[j] < s.cpus[j].ended)
  }

  ghost predicate Queued(s: System, e: Callback) {
    |e.at| == |s.cpus| && forall j :: 0 <= j < |s.cpus| ==> e.at[j] <= s.cpus[j].begun
  }

  ghost predicate ListsOk(s: System, i: nat)
    requires i < |s.cpus|
  {
    var c := s.cpus[i];
    && (forall e :: e in c.next ==> Queued(s, e))
    && (c.pc == Check || c.pc == Shift ==> forall e :: e in c.next ==> Waits(s, e, c.lBatch + 1))
    && (forall e :: e in c.curr ==> Waits(s, e, c.cBatch))
    && (forall e :: e in c.done ==> Elapsed(s, e))
  }

  /** `count` is the number of CPUs that still owe a quiet call, except while a CPU has reset it for the next batch; at
      most one CPU completes and at most one advances a batch. */
  ghost predicate Inv(s: System) {
    && (forall i :: 0 <= i < |s.cpus| ==> CpuOk(s, i) && ListsOk(s, i))
    && (forall i, j :: 0 <= i < j < |s.cpus| ==> !(Advancing(s.cpus[i]) && Advancing(s.cpus[j])))
    && (forall i, j :: 0 <= i < j < |s.cpus| ==> !(Completing(s.cpus[i]) && Completing(s.cpus[j])))
    && s.count == if Resetting(s) then |s.cpus| else |Owing(s)|
  }

  ghost predicate Resetting(s: System) { exists i :: 0 <= i < |s.cpus| && (s.cpus[i].pc.Load? || s.cpus[i].pc.Store?) }

  // ----- steps that touch only the CPU's own fields

  /** CPU k changes its own fields; what it owes and what it has finished stay the same. */
  ghost predicate Private(s: System, s': System, k: nat) {
    && k < |s.cpus| == |s'.cpus| && s'.state == s.state && s'.count == s.count
    && (forall i :: 0 <= i < |s.cpus| && i != k ==> s'.cpus[i] == s.cpus[i])
    && Owes(s', k) == Owes(s, k) && s'.cpus[k].begun >= s.cpus[k].begun && s'.cpus[k].ended == s.cpus[k].ended
    && (s'.cpus[k].pc.Load? || s'.cpus[k].pc.Store? <==> s.cpus[k].pc.Load? || s.cpus[k].pc.Store?)
    && (Advancing(s'.cpus[k]) ==> Advancing(s.cpus[k])) && (Completing(s'.cpus[k]) ==> Completing(s.cpus[k]))
  }

  lemma PrivateOwing(s: System, s': System, k: nat)
    requires Private(s, s', k)
    ensures Owing(s') == Owing(s) && (Resetting(s') <==> Resetting(s))
    ensures forall i :: 0 <= i < |s.cpus| ==> Owes(s', i) == Owes(s, i)
  {
    forall i | 0 <= i < |s.cpus|
      ensures Owes(s', i) == Owes(s, i)
      ensures s'.cpus[i].pc.Load? || s'.cpus[i].pc.Store? <==> s.cpus[i].pc.Load? || s.cpus[i].pc.Store?
    { if i != k { assert s'.cpus[i] == s.cpus[i]; } }
    if Resetting(s) {
      var i :| 0 <= i < |s.cpus| && (s.cpus[i].pc.Load? || s.cpus[i].pc.Store?);
      assert Resetting(s');
    }
    if Resetting(s') {
      var i :| 0 <= i < |s.cpus| && (s'.cpus[i].pc.Load? || s'.cpus[i].pc.Store?);
      assert Resetting(s);
    }
  }

  lemma PrivateLists(s: System, s': System, k: nat, e: Callback, b: nat)
    requires Private(s, s', k)
    ensures Waits(s, e, b) ==> Waits(s', e, b)
    ensures Elapsed(s, e) ==> Elapsed(s', e)
    ensures Queued(s, e) ==> Queued(s', e)
  {
    PrivateOwing(s, s', k);
    assert forall j :: 0 <= j < |s.cpus| ==> s'.cpus[j].begun >= s.cpus[j].begun && s'.cpus[j].ended == s.cpus[j].ended;
  }

  lemma PrivateOther(s: System, s': System, k: nat, i: nat)
    requires Private(s, s', k) && Inv(s) && i < |s.cpus| && i != k
    ensures CpuOk(s', i) && ListsOk(s', i)
  {
    PrivateOwing(s, s', k);
    assert CpuOk(s, i) && ListsOk(s, i) && s'.cpus[i] == s.cpus[i];
    forall e, b { PrivateLists(s, s', k, e, b); }
  }

  lemma PrivateInv(s: System, s': System, k: nat)
    requires Private(s, s', k) && Inv(s) && CpuOk(s', k) && ListsOk(s', k)
    ensures Inv(s')
  {
    PrivateOwing(s, s', k);
    forall i | 0 <= i < |s'.cpus|
      ensures CpuOk(s', i) && ListsOk(s', i)
    { if i != k { PrivateOther(s, s', k, i); } }
  }

  lemma CallStep(s: System, k: nat, id: nat)
    requires Inv(s) && Enabled(s, k, Call(id))
    ensures Inv(Do(s, k, Call(id)))
  {
    var s' := Do(s, k, Call(id));
    assert CpuOk(s, k) && ListsOk(s, k) && Private(s, s', k);
    PrivateOwing(s, s', k);
    forall e, b { PrivateLists(s, s', k, e, b); }
    PrivateInv(s, s', k);
  }

  lemma UpdateStep(s: System, k: nat)
    requires Inv(s) && Enabled(s, k, Update)
    ensures Inv(Do(s, k, Update))
  {
    var s' := Do(s, k, Update);
    assert CpuOk(s, k) && ListsOk(s, k) && Private(s, s', k);
    PrivateOwing(s, s', k);
    forall e, b { PrivateLists(s, s', k, e, b); }
    PrivateInv(s, s', k);
  }

  lemma QuietBeginStep(s: System, k: nat)
    requires Inv(s) && Enabled(s, k, QuietBegin)
    ensures Inv(Do(s, k, QuietBegin))
  {
    var s' := Do(s, k, QuietBegin);
    assert CpuOk(s, k) && ListsOk(s, k) && Private(s, s', k);
    PrivateOwing(s, s', k);
    forall e, b { PrivateLists(s, s', k, e, b); }
    PrivateInv(s, s', k);
  }

  lemma RefreshStep(s: System, k: nat)
    requires Inv(s) && k < |s.cpus| && s.cpus[k].pc == Refresh
    ensures Inv(Continue(s, k))
  {
    var s' := Continue(s, k);
    assert CpuOk(s, k) && ListsOk(s, k) && Private(s, s', k);
    PrivateOwing(s, s', k);
    forall e, b { PrivateLists(s, s', k, e, b); }
    PrivateInv(s, s', k);
  }

  lemma CheckStep(s: System, k: nat)
    requires Inv(s) && k < |s.cpus| && s.cpus[k].pc == Check
    ensures Inv(Continue(s, k))
  {
    var s' := Continue(s, k);
    assert CpuOk(s, k) && ListsOk(s, k) && Private(s, s', k);
    PrivateOwing(s, s', k);
    forall e, b { PrivateLists(s, s', k, e, b); }
    if s.cpus[k].curr != [] && Complete(s.state, s.cpus[k].cBatch) {
      forall e | e in s.cpus[k].curr
        ensures Elapsed(s', e)
      { CompleteMeansElapsed(s, k, e, s.cpus[k].cBatch); }
    }
    PrivateInv(s, s', k);
  }

  lemma ShiftStep(s: System, k: nat)
    requires Inv(s) && k < |s.cpus| && s.cpus[k].pc == Shift
    ensures Inv(Continue(s, k))
  {
    var s' := Continue(s, k);
    assert CpuOk(s, k) && ListsOk(s, k) && Private(s, s', k);
    PrivateOwing(s, s', k);
    forall e, b { PrivateLists(s, s', k, e, b); }
    PrivateInv(s, s', k);
  }

  lemma InvokeStep(s: System, k: nat)
    requires Inv(s) && k < |s.cpus| && s.cpus[k].pc == Invoke
    ensures Inv(Continue(s, k))
  {
    var s' := Continue(s, k);
    assert CpuOk(s, k) && ListsOk(s, k) && Private(s, s', k);
    PrivateOwing(s, s', k);
    forall e, b { PrivateLists(s, s', k, e, b); }
    if s.cpus[k].done != [] { assert forall e :: e in s.cpus[k].done[1..] ==> e in s.cpus[k].done; }
    PrivateInv(s, s', k);
  }

  lemma ReadStep(s: System, k: nat)
    requires Inv(s) && k < |s.cpus|
             && (s.cpus[k].pc.Read? || s.cpus[k].pc.Load? || (s.cpus[k].pc.Swap? && s.state != s.cpus[k].pc.v))
    ensures Inv(Continue(s, k))
  {
    var s' := Continue(s, k);
    assert CpuOk(s, k) && ListsOk(s, k) && Private(s, s', k);
    PrivateOwing(s, s', k);
    forall e, b { PrivateLists(s, s', k, e, b); }
    PrivateInv(s, s', k);
  }

  /** A complete batch: every CPU has been quiet since the batch began. */
  lemma CompleteMeansElapsed(s: System, k: nat, e: Callback, b: nat)
    requires Inv(s) && Waits(s, e, b) && Complete(s.state, b)
    ensures Elapsed(s, e)
  {
    forall j | 0 <= j < |s.cpus|
      ensures e.at[j] < s.cpus[j].ended
    { assert CpuOk(s, j); }
  }

  // ----- steps that change the shared words

  /** The counter is decremented by a CPU that owes; when it drops to zero nobody owes any more. */
  lemma QuietStep(s: System, k: nat)
    requires Inv(s) && k < |s.cpus| && s.cpus[k].pc == Quiet
    ensures Inv(Continue(s, k))
  {
    var s' := Continue(s, k);
    assert CpuOk(s, k) && ListsOk(s, k);
    QuietOwing(s, k);
    forall i | 0 <= i < |s.cpus|
      ensures CpuOk(s', i) && ListsOk(s', i) && (i != k ==> !Completing(s'.cpus[i]))
    {
      assert CpuOk(s, i) && ListsOk(s, i) && k in Owing(s);
      forall e, b { QuietLists(s, k, e, b); }
    }
  }

  lemma QuietOwing(s: System, k: nat)
    requires Inv(s) && k < |s.cpus| && s.cpus[k].pc == Quiet
    ensures var s' := Continue(s, k);
            && k in Owing(s) && Owing(s') == Owing(s) - {k} && !Resetting(s) && !Resetting(s')
            && s'.count == |Owing(s')| && (s'.count == 0 <==> Owing(s') == {})
            && (forall i :: 0 <= i < |s.cpus| && i != k ==> Owes(s', i) == Owes(s, i)) && !Owes(s', k)
  {
    var s' := Continue(s, k);
    assert CpuOk(s, k) && Owes(s, k);
    forall i | 0 <= i < |s.cpus|
      ensures !(s.cpus[i].pc.Load? || s.cpus[i].pc.Store?)
    { assert CpuOk(s, i); }
    assert Owing(s') == Owing(s) - {k};
  }

  lemma QuietLists(s: System, k: nat, e: Callback, b: nat)
    requires Inv(s) && k < |s.cpus| && s.cpus[k].pc == Quiet
    ensures var s' := Continue(s, k);
            && (Waits(s, e, b) ==> Waits(s', e, b)) && (Elapsed(s, e) ==> Elapsed(s', e))
            && (Queued(s, e) ==> Queued(s', e))
  {
    QuietOwing(s, k);
    var s' := Continue(s, k);
    assert forall j :: 0 <= j < |s.cpus| ==>
      s'.cpus[j].begun == s.cpus[j].begun && s'.cpus[j].ended == s.cpus[j].ended + (if j == k then 1 else 0);
  }

  /** The batch number and the two flags of a word. */
  lemma WordParts(q: nat, c: nat)
    requires c < 4
    ensures Batch(4 * q + c) == q && HasFlag(4 * q + c, CMP) == (c % 2 == 1) && HasFlag(4 * q + c, PND) == (c >= 2)
  {
    var h := if c >= 2 then 1 else 0;
    Bits.DivUnique(4 * q + c, 4, q);
    Bits.DivUnique(4 * q + c, 2, 2 * q + h);
    Bits.DivUnique(2 * q + h, 2, q);
  }

  lemma FlagSet(v: nat, f: Flag)
    requires !HasFlag(v, f)
    ensures Batch(v + Bit(f)) == Batch(v) && HasFlag(v + Bit(f), f)
            && HasFlag(v + Bit(f), Other(f)) == HasFlag(v, Other(f))
  {
    WordParts(v / 4, v % 4);
    WordParts(v / 4, v % 4 + Bit(f));
  }

  /** A successful compare-and-swap sets one flag; only the CPU that sets the second one goes on to advance. */
  lemma SwapStep(s: System, k: nat)
    requires Inv(s) && k < |s.cpus| && s.cpus[k].pc.Swap? && s.state == s.cpus[k].pc.v
    ensures Inv(Continue(s, k))
  {
    var s' := Continue(s, k);
    SwapOwing(s, k);
    forall i | 0 <= i < |s.cpus|
      ensures CpuOk(s', i) && ListsOk(s', i) && (i != k ==> !Advancing(s'.cpus[i]))
      ensures !(s'.cpus[i].pc.Load? || s'.cpus[i].pc.Store?) && !(s.cpus[i].pc.Load? || s.cpus[i].pc.Store?)
    {
      SwapCpu(s, k, i);
      assert ListsOk(s, i);
      forall e, b { SwapLists(s, k, e, b); }
    }
    assert CpuOk(s, k);
  }

  lemma SwapCpu(s: System, k: nat, i: nat)
    requires Inv(s) && k < |s.cpus| && s.cpus[k].pc.Swap? && s.state == s.cpus[k].pc.v && i < |s.cpus|
    ensures var s' := Continue(s, k);
            CpuOk(s', i) && (i != k ==> !Advancing(s.cpus[i])) && !(s'.cpus[i].pc.Load? || s'.cpus[i].pc.Store?)
  {
    var f := s.cpus[k].pc.f;
    assert CpuOk(s, k) && CpuOk(s, i);
    FlagSet(s.state, f);
    SwapOwing(s, k);
    assert f == CMP ==> Owing(s) == {} && (i != k ==> !Completing(s.cpus[i]));
    assert Owes(s, i) ==> i in Owing(s);
  }

  lemma SwapOwing(s: System, k: nat)
    requires Inv(s) && k < |s.cpus| && s.cpus[k].pc.Swap? && s.state == s.cpus[k].pc.v
    ensures var s' := Continue(s, k);
            Owing(s') == Owing(s) && forall i :: 0 <= i < |s.cpus| ==> Owes(s', i) == Owes(s, i)
  {
    assert CpuOk(s, k);
    FlagSet(s.state, s.cpus[k].pc.f);
  }

  lemma SwapLists(s: System, k: nat, e: Callback, b: nat)
    requires Inv(s) && k < |s.cpus| && s.cpus[k].pc.Swap? && s.state == s.cpus[k].pc.v
    ensures var s' := Continue(s, k);
            && (Waits(s, e, b) ==> Waits(s', e, b)) && (Elapsed(s, e) ==> Elapsed(s', e))
            && (Queued(s, e) ==> Queued(s', e))
  {
    assert CpuOk(s, k);
    FlagSet(s.state, s.cpus[k].pc.f);
    SwapOwing(s, k);
    var s' := Continue(s, k);
    assert forall j :: 0 <= j < |s.cpus| ==> s'.cpus[j].begun == s.cpus[j].begun && s'.cpus[j].ended == s.cpus[j].ended;
  }

  lemma ResetStep(s: System, k: nat)
    requires Inv(s) && k < |s.cpus| && s.cpus[k].pc.Reset?
    ensures Inv(Continue(s, k))
  {
    var s' := Continue(s, k);
    assert CpuOk(s, k) && ListsOk(s, k);
    assert forall i :: 0 <= i < |s.cpus| ==> Owes(s', i) == Owes(s, i);
    assert Owing(s') == Owing(s);
    assert Resetting(s') by { assert s'.cpus[k].pc.Load?; }
    forall i | 0 <= i < |s.cpus|
      ensures CpuOk(s', i) && ListsOk(s', i)
    {
      assert CpuOk(s, i) && ListsOk(s, i);
      forall e, b
        ensures (Waits(s, e, b) ==> Waits(s', e, b)) && (Elapsed(s, e) ==> Elapsed(s', e))
             && (Queued(s, e) ==> Queued(s', e))
      { ResetLists(s, k, e, b); }
    }
  }

  lemma ResetLists(s: System, k: nat, e: Callback, b: nat)
    requires k < |s.cpus| && s.cpus[k].pc.Reset?
    ensures var s' := Continue(s, k);
            && (Waits(s, e, b) ==> Waits(s', e, b)) && (Elapsed(s, e) ==> Elapsed(s', e))
            && (Queued(s, e) ==> Queued(s', e))
  {
    var s' := Continue(s, k);
    assert forall j :: 0 <= j < |s.cpus| ==>
      s'.cpus[j].begun == s.cpus[j].begun && s'.cpus[j].ended == s.cpus[j].ended && Owes(s', j) == Owes(s, j);
  }

  /** The next batch begins: nobody was owing, now everybody is. */
  lemma StoreStep(s: System, k: nat)
    requires Inv(s) && k < |s.cpus| && s.cpus[k].pc.Store?
    ensures Inv(Continue(s, k))
  {
    var s' := Continue(s, k);
    StoreOwing(s, k);
    forall i | 0 <= i < |s.cpus|
      ensures CpuOk(s', i) && ListsOk(s', i) && !Advancing(s'.cpus[i]) && !Completing(s'.cpus[i])
      ensures !(s'.cpus[i].pc.Load? || s'.cpus[i].pc.Store?)
    {
      assert CpuOk(s, i) && ListsOk(s, i);
      forall e, b { StoreLists(s, k, e, b); }
    }
  }

  /** Incrementing a word with both flags set counts the batch up and clears the flags. */
  lemma Carry(v: nat)
    requires HasFlag(v, CMP) && HasFlag(v, PND)
    ensures Batch(v + 1) == Batch(v) + 1 && !HasFlag(v + 1, CMP) && !HasFlag(v + 1, PND)
  {
  }

  lemma StoreOwing(s: System, k: nat)
    requires Inv(s) && k < |s.cpus| && s.cpus[k].pc.Store?
    ensures var s' := Continue(s, k);
            && Batch(s'.state) == Batch(s.state) + 1 && !HasFlag(s'.state, CMP) && !HasFlag(s'.state, PND)
            && HasFlag(s.state, CMP) && Resetting(s) && s.count == |s.cpus| && |Owing(s')| == |s.cpus|
            && (forall i :: 0 <= i < |s.cpus| ==> Owes(s', i) && !Owes(s, i) && s.cpus[i].lBatch == Batch(s.state))
            && (forall i :: 0 <= i < |s.cpus| && i != k ==> !Advancing(s.cpus[i]))
  {
    var s' := Continue(s, k);
    assert CpuOk(s, k);
    Carry(s.state);
    forall i | 0 <= i < |s.cpus|
      ensures Owes(s', i) && !Owes(s, i) && s.cpus[i].lBatch == Batch(s.state)
    { assert CpuOk(s, i); }
    assert Resetting(s) by { assert s.cpus[k].pc.Store?; }
    IndicesCount(|s.cpus|);
    assert Owing(s') == Indices(|s.cpus|);
  }

  function Indices(n: nat): set<nat> { if n == 0 then {} else Indices(n - 1) + {n - 1} }

  lemma {:induction false} IndicesCount(n: nat)
    ensures |Indices(n)| == n && forall i :: i in Indices(n) <==> 0 <= i < n
  {
    if n > 0 { IndicesCount(n - 1); }
  }

  lemma StoreLists(s: System, k: nat, e: Callback, b: nat)
    requires Inv(s) && k < |s.cpus| && s.cpus[k].pc.Store?
    ensures var s' := Continue(s, k);
            && (Waits(s, e, b) ==> Waits(s', e, b)) && (Elapsed(s, e) ==> Elapsed(s', e))
            && (Queued(s, e) ==> Queued(s', e))
  {
    StoreOwing(s, k);
    var s' := Continue(s, k);
    forall j | 0 <= j < |s.cpus|
      ensures s'.cpus[j].begun == s.cpus[j].begun && s'.cpus[j].ended == s.cpus[j].ended == s.cpus[j].begun
    { assert CpuOk(s, j); }
  }

  // ----- all runs

  lemma StartInv(n: nat)
    ensures Inv(Start(n))
  {
    assert Owing(Start(n)) == {};
  }

  lemma StepInv(s: System, k: nat, a: Action)
    requires Inv(s) && Enabled(s, k, a)
    ensures Inv(Do(s, k, a))
  {
    match a
    case Call(id) => CallStep(s, k, id);
    case Update => UpdateStep(s, k);
    case QuietBegin => QuietBeginStep(s, k);
    case Advance =>
      match s.cpus[k].pc
      case Idle =>
      case Refresh => RefreshStep(s, k);
      case Check => CheckStep(s, k);
      case Shift => ShiftStep(s, k);
      case Invoke => InvokeStep(s, k);
      case Quiet => QuietStep(s, k);
      case Read(_) => ReadStep(s, k);
      case Swap(_, v) => if s.state == v { SwapStep(s, k); } else { ReadStep(s, k); }
      case Reset(_) => ResetStep(s, k);
      case Load(_) => ReadStep(s, k);
      case Store(_, _) => StoreStep(s, k);
  }

  lemma {:induction false} RunInv(n: nat, run: seq<(nat, Action)>)
    ensures Inv(After(n, run)) && |After(n, run).cpus| == n
    decreases |run|
  {
    if run == [] {
      StartInv(n);
    } else {
      RunInv(n, run[..|run| - 1]);
      var s := After(n, run[..|run| - 1]);
      var (k, a) := run[|run| - 1];
      if Enabled(s, k, a) { StepInv(s, k, a); }
    }
  }

  /** RCU safety: in every interleaving on any number of CPUs, a callback that is about to be invoked was queued before
      a quiet call of every CPU that has ended by now. */
  lemma GracePeriod(n: nat, run: seq<(nat, Action)>, k: nat)
    requires k < |After(n, run).cpus| && After(n, run).cpus[k].pc == Invoke && After(n, run).cpus[k].done != []
    ensures Elapsed(After(n, run), After(n, run).cpus[k].done[0])
  {
    RunInv(n, run);
    assert ListsOk(After(n, run), k);
  }

  /** In every reachable state the counter is exact, and no two CPUs advance a batch. */
  lemma CounterExact(n: nat, run: seq<(nat, Action)>)
    ensures var s := After(n, run);
            && (!Resetting(s) ==> s.count == |Owing(s)|)
            && forall i, j :: 0 <= i < j < |s.cpus| ==> !(Advancing(s.cpus[i]) && Advancing(s.cpus[j]))
  {
    RunInv(n, run);
  }

  // ----- 64-bit words

  function Word(x: int): nat { x % WORD }

  function Signed(w: nat): int { if w >= WORD / 2 then w - WORD else w }

  function WithoutPending(st: nat): nat { if HasFlag(st, PND) then st - 2 else st }

  /** Rcu::complete and the comparison with Rcu::batch as computed on wrapped words. */
  predicate WordComplete(st: nat, b: nat) { Signed(Word(Word(WithoutPending(st)) - Word(4 * b))) > 0 }

  predicate WordSameBatch(st: nat, l: nat) { Word(st) / 4 == Word(4 * l) / 4 }

  lemma WordDifference(x: int, y: int)
    requires -(WORD / 2) <= x - y < WORD / 2
    ensures Signed(Word(Word(x) - Word(y))) == x - y
  {
    WordReduce(x);
    WordReduce(y);
    var q := x / WORD - y / WORD;
    assert Word(x) - Word(y) == x - y - q * WORD;
    WordShift(x - y, -q);
  }

  lemma WordReduce(x: int)
    ensures x == x / WORD * WORD + Word(x) && 0 <= Word(x) < WORD
  {
  }

  lemma WordShift(d: int, q: int)
    requires -(WORD / 2) <= d < WORD / 2
    ensures Signed(Word(d + q * WORD)) == d
  {
    var r := if d < 0 then d + WORD else d;
    var m := if d < 0 then q - 1 else q;
    assert d + q * WORD == m * WORD + r;
    Bits.DivUnique(d + q * WORD, WORD, m);
    WordReduce(d + q * WORD);
  }

  lemma SameBatchExact(st: nat, l: nat)
    requires l <= Batch(st) <= l + 1
    ensures WordSameBatch(st, l) <==> l == Batch(st)
  {
    var w, v := Word(st) / 4, Word(4 * l) / 4;
    assert (st / 4 - l) == 0 || (st / 4 - l) == 1;
    WordReduce(st);
    WordReduce(4 * l);
    assert WORD == 4 * (WORD / 4);
    assert st / 4 == st / WORD * (WORD / 4) + w;
    assert l == (4 * l) / WORD * (WORD / 4) + v;
  }

  lemma CompleteExact(st: nat, b: nat)
    requires -1 <= Batch(st) - b <= 2
    ensures WordComplete(st, b) <==> Complete(st, b)
  {
    WordDifference(WithoutPending(st), 4 * b);
  }

  /** A compare-and-swap on wrapped words cannot take another word for the one read before. */
  lemma SwapExact(st: nat, v: nat)
    requires Batch(v) <= Batch(st) <= Batch(v) + 1
    ensures Word(st) == Word(v) <==> st == v
  {
    if Word(st) == Word(v) { WordDifference(st, v); }
  }

  /** Wrap-around of the word never matters: in every reachable state both wrapped comparisons and the compare-and-swap
      of Rcu::start_batch decide as they would on unbounded words. */
  lemma WrapAround(n: nat, run: seq<(nat, Action)>, k: nat)
    requires k < |After(n, run).cpus|
    ensures var s := After(n, run);
            var c := s.cpus[k];
            && (WordSameBatch(s.state, c.lBatch) <==> c.lBatch == Batch(s.state))
            && (c.curr != [] ==> (WordComplete(s.state, c.cBatch) <==> Complete(s.state, c.cBatch)))
            && (c.pc.Swap? ==> (Word(s.state) == Word(c.pc.v) <==> s.state == c.pc.v))
  {
    RunInv(n, run);
    InvExact(After(n, run), k);
  }

  lemma InvExact(s: System, k: nat)
    requires Inv(s) && k < |s.cpus|
    ensures var c := s.cpus[k];
            && (WordSameBatch(s.state, c.lBatch) <==> c.lBatch == Batch(s.state))
            && (c.curr != [] ==> (WordComplete(s.state, c.cBatch) <==> Complete(s.state, c.cBatch)))
            && (c.pc.Swap? ==> (Word(s.state) == Word(c.pc.v) <==> s.state == c.pc.v))
  {
    assert CpuOk(s, k);
    var c := s.cpus[k];
    SameBatchExact(s.state, c.lBatch);
    if c.curr != [] { CompleteExact(s.state, c.cBatch); }
    if c.pc.Swap? { SwapExact(s.state, c.pc.v); }
  }
}
