/** Lending of CPU cores between cells (src/resource.cpp, src/core_allocator.cpp, src/cell.cpp). Every core goes its own
    way; an action is one operation on its resource, except that releases and reclamations can also be taken in two
    parts. */
module CoreLending {
  import opened Options

  type Cell = nat

  /** What a release has read when it is taken in two parts. */
  datatype Release = Release(cell: Cell, requested: bool)

  /** A core: its owner, who holds it, its bit in the set of idle cores, the yield flags that the cells have for it,
      the cells with workers on it, a release that has begun, and whom a reclamation that has begun takes for the
      borrower. */
  datatype Core = Core(owner: Option<Cell>, holder: Option<Cell>, idle: bool, flags: map<Cell, nat>, workers: set<Cell>,
                       release: Option<Release>, borrower: Option<Cell>)

  function Flag(s: Core, c: Cell): nat { if c in s.flags then s.flags[c] else 0 }

  function SetFlag(s: Core, c: Cell, v: nat): Core { s.(flags := s.flags[c := v]) }

  datatype Action = Occupy(c: Cell) | Return | Reclaim | Confer(c: Cell)
    | Give(c: Cell)                                 // Core_allocator::release by a cell
    | GiveBegin(c: Cell) | GiveEnd                  // the same in two parts
    | ReclaimBegin | ReclaimEnd                     // a reclamation of a borrowed core in two parts
    | Announce(c: Cell, v: nat)                     // user code announces a voluntary yield
    | Start(c: Cell) | Stop(c: Cell)                // the first worker of a cell appears, the last one goes

  // ----- the operations

  /** Cpu_resource::occupy */
  function Occupied(s: Core, c: Cell): Core {
    if s.holder.None? then s.(holder := Some(c), idle := false) else s
  }

  /** Cpu_resource::return_core */
  function Returned(s: Core): Core
    requires s.holder.Some?
  {
    SetFlag(s, s.holder.value, 0).(holder := s.owner)
  }

  /** Cpu_resource::release once the flag has been read */
  function Released(s: Core, c: Cell): Core { SetFlag(s, c, 0).(holder := None, idle := true) }

  /** Core_allocator::release */
  function Given(s: Core, c: Cell): Core {
    if s.holder != Some(c) then SetFlag(s, c, 0)
    else if Flag(s, c) == 1 then Returned(s) else Released(s, c)
  }

  /** Cpu_resource::reclaim together with Cell::return_core. When the borrower has announced a yield the owner tries to
      occupy the core once more, which is an action of its own. */
  function Reclaimed(s: Core): Core
    requires s.owner.Some?
  {
    if s.holder.None? then Occupied(s, s.owner.value)
    else if s.holder == s.owner then s
    else Asked(s, s.holder.value)
  }

  /** Cell::return_core of cell b */
  function Asked(s: Core, b: Cell): Core
    requires b !in s.workers ==> s.holder.Some?
  {
    if b !in s.workers then Returned(s) else if Flag(s, b) == 0 then SetFlag(s, b, 1) else s
  }

  predicate ReclaimSucceeds(s: Core)
    requires s.owner.Some?
  {
    || s.holder.None?
    || (s.holder != s.owner && (s.holder.value in s.workers ==> Flag(s, s.holder.value) == 0))
  }

  predicate Enabled(s: Core, a: Action) {
    match a
    case Return => s.holder.Some? && s.owner.Some?
    case Reclaim => s.owner.Some?
    case GiveBegin(c) => s.release.None? && s.holder == Some(c)
    case GiveEnd => s.release.Some? && s.holder.Some?
    case ReclaimBegin => s.borrower.None? && s.owner.Some? && s.holder.Some? && s.holder != s.owner
    case ReclaimEnd => s.borrower.Some? && (s.borrower.value !in s.workers ==> s.holder.Some?)
    case Announce(c, v) => Flag(s, c) == 0 && v > 1
    case _ => true
  }

  function Do(s: Core, a: Action): Core
    requires Enabled(s, a)
  {
    match a
    case Occupy(c) => Occupied(s, c)
    case Return => Returned(s)
    case Reclaim => Reclaimed(s)
    case Confer(c) => s.(owner := Some(c))
    case Give(c) => Given(s, c)
    case GiveBegin(c) => s.(release := Some(Release(c, Flag(s, c) == 1)))
    case GiveEnd =>
      var t := s.(release := None);
      if s.release.value.requested then Returned(t) else Released(t, s.release.value.cell)
    case ReclaimBegin => s.(borrower := s.holder)
    case ReclaimEnd => Asked(s.(borrower := None), s.borrower.value)
    case Announce(c, v) => SetFlag(s, c, v)
    case Start(c) => s.(workers := s.workers + {c})
    case Stop(c) => s.(workers := s.workers - {c})
  }

  function Next(s: Core, a: Action): Core { if Enabled(s, a) then Do(s, a) else s }

  // ----- whole operations

  predicate Whole(a: Action) { !a.GiveBegin? && !a.GiveEnd? && !a.ReclaimBegin? && !a.ReclaimEnd? }

  /** A core has no holder exactly when it is idle; a yield request exists only for the holder, and only with an owner
      to return the core to. */
  predicate Inv(s: Core) {
    && (s.holder.None? <==> s.idle) && s.release.None? && s.borrower.None?
    && (forall c | c in s.flags && s.flags[c] == 1 :: s.holder == Some(c) && s.owner.Some?)
  }

  /** Its owner has asked cell c to return the core. */
  predicate Pending(s: Core, c: Cell) { s.holder == Some(c) && Flag(s, c) == 1 && s.owner.Some? }

  function New(): Core { Core(None, None, true, map[], {}, None, None) }

  function After(s: Core, run: seq<Action>): Core {
    if run == [] then s else Next(After(s, run[..|run| - 1]), run[|run| - 1])
  }

  lemma StepInv(s: Core, a: Action)
    requires Inv(s) && Whole(a)
    ensures Inv(Next(s, a))
  {
  }

  lemma {:induction false} RunInv(s: Core, run: seq<Action>)
    requires Inv(s) && forall a | a in run :: Whole(a)
    ensures Inv(After(s, run))
    decreases |run|
  {
    if run != [] {
      RunInv(s, run[..|run| - 1]);
      StepInv(After(s, run[..|run| - 1]), run[|run| - 1]);
    }
  }

  /** A reclamation that reports success has put the owner in possession or filed a request. The second attempt at
      occupying the core, after the borrower has announced a yield, succeeds exactly when nobody holds it, and then the
      owner does. */
  lemma ReclaimReports(s: Core)
    requires Inv(s) && s.owner.Some?
    ensures var t := Reclaimed(s);
            && (ReclaimSucceeds(s) ==> t.holder == s.owner || Pending(t, s.holder.value))
            && (!ReclaimSucceeds(s) ==> t == s)
            && t.owner == s.owner
    ensures s.holder.None? <==> Occupied(s, s.owner.value) != s
    ensures s.holder.None? ==> Occupied(s, s.owner.value).holder == s.owner
  {
  }

  /** The request is still there, or has just been met. */
  predicate Kept(s: Core, t: Core, c: Cell) {
    Pending(t, c) || (t.holder == t.owner && t.owner == s.owner && Flag(t, c) == 0)
  }

  /** A request to return a core is kept by every step, except for the end of a release that read the flag before the
      request was filed: that one drops it. */
  lemma RequestKept(s: Core, a: Action, c: Cell)
    requires Pending(s, c)
    ensures Kept(s, Next(s, a), c) <==> !(a.GiveEnd? && s.release.Some? && !s.release.value.requested)
  {
  }

  /** In a run from s that begins with a request to c, the request is pending until the owner holds the core. */
  predicate Honoured(s: Core, run: seq<Action>, c: Cell)
    decreases |run|
  {
    run == [] ||
    var t := Next(s, run[0]);
    if Pending(t, c) then Honoured(t, run[1..], c) else t.holder == t.owner && t.owner == s.owner
  }

  /** No reclaim is lost: with whole operations, whatever the cells and their users do, the next holder of a core for
      which a request was filed is its owner. */
  lemma {:induction false} NextHolderIsOwner(s: Core, run: seq<Action>, c: Cell)
    requires Inv(s) && Pending(s, c) && forall a | a in run :: Whole(a)
    ensures Honoured(s, run, c)
    decreases |run|
  {
    if run != [] {
      RequestKept(s, run[0], c);
      StepInv(s, run[0]);
      var t := Next(s, run[0]);
      if Pending(t, c) { NextHolderIsOwner(t, run[1..], c); }
    }
  }

  // ----- yield flags

  /** Giving the core up, or returning it, clears the flag of the cell concerned, whatever it was, and no other. */
  lemma GivingClears(s: Core, c: Cell, d: Cell)
    ensures Flag(Next(s, Give(c)), c) == 0 && (d != c ==> Flag(Next(s, Give(c)), d) == Flag(s, d))
    ensures Enabled(s, Return) ==>
      var h, t := s.holder.value, Next(s, Return);
      Flag(t, h) == 0 && t.holder == s.owner && (d != h ==> Flag(t, d) == Flag(s, d))
  {
  }

  /** The other operations touch a flag only to announce a yield, or to file or meet a request. */
  lemma OtherFlags(s: Core, a: Action, c: Cell)
    requires Whole(a) && !a.Give? && !a.Return?
    ensures var t := Next(s, a);
            Flag(t, c) ==
              if a.Announce? && a.c == c && Enabled(s, a) then a.v
              else if a.Reclaim? && s.owner.Some? && s.owner != Some(c) && s.holder == Some(c) then
                if c !in s.workers then 0 else if Flag(s, c) == 0 then 1 else Flag(s, c)
              else Flag(s, c)
  {
  }

  predicate Silent(run: seq<Action>, c: Cell) { forall a | a in run :: Whole(a) && !(a.Announce? && a.c == c) }

  /** A cell that announces nothing has no flag but that of a request. */
  lemma {:induction false} SilentFlag(s: Core, run: seq<Action>, c: Cell)
    requires Flag(s, c) <= 1 && Silent(run, c)
    ensures Flag(After(s, run), c) <= 1
    decreases |run|
  {
    if run != [] {
      var n := |run| - 1;
      SilentFlag(s, run[..n], c);
      var t, a := After(s, run[..n]), run[n];
      if a.Give? {
        GivingClears(t, a.c, c);
      } else if a.Return? {
        GivingClears(t, c, c);
      } else {
        OtherFlags(t, a, c);
      }
    }
  }

  /** A cell that has announced nothing since it last gave the core up can be asked for it again: whatever happened
      before and in between, when it occupies the idle core of another cell and has workers there, a reclamation files a
      request and reports success. */
  lemma AskedAgain(before: seq<Action>, between: seq<Action>, c: Cell)
    requires (forall a | a in before :: Whole(a)) && Silent(between, c)
    ensures var s := After(Next(After(New(), before), Give(c)), between);
            s.idle && s.owner.Some? && s.owner != Some(c) && c in s.workers ==>
              var t := Next(s, Occupy(c));
              ReclaimSucceeds(t) && Pending(Next(t, Reclaim), c)
  {
    var u := After(New(), before);
    RunInv(New(), before);
    StepInv(u, Give(c));
    GivingClears(u, c, c);
    SilentFlag(Next(u, Give(c)), between, c);
    RunInv(Next(u, Give(c)), between);
    var s := After(Next(u, Give(c)), between);
    if s.idle && s.owner.Some? && s.owner != Some(c) && c in s.workers { FlagWhenIdle(s, c); }
  }

  lemma FlagWhenIdle(s: Core, c: Cell)
    requires Inv(s) && s.idle && Flag(s, c) <= 1
    ensures Flag(s, c) == 0
  {
  }

  // ----- releases in two parts

  /** A release in two parts with nothing in between is a whole one. */
  lemma TwoPartsAreOne(s: Core, c: Cell)
    requires Inv(s) && s.holder == Some(c)
    ensures Next(Next(s, GiveBegin(c)), GiveEnd) == Next(s, Give(c))
  {
  }

  /** A request that is filed between the two parts is lost: cell 1 owns the core, cell 2 gives it back just when cell 1
      reclaims it, and cell 3 gets it although the reclamation has reported success. */
  lemma LostRequest()
    ensures var s := After(New(), [Confer(1), Occupy(2), Start(2), GiveBegin(2)]);
            && s.owner.Some? && ReclaimSucceeds(s) && Pending(Next(s, Reclaim), 2)
            && After(s, [Reclaim, GiveEnd, Occupy(3)]).holder == Some(3)
  {
    var r := [Confer(1), Occupy(2), Start(2)];
    LentCore();
    Unfold(New(), r, GiveBegin(2));
    assert r + [GiveBegin(2)] == [Confer(1), Occupy(2), Start(2), GiveBegin(2)];
    var s, q := Next(Lent(), GiveBegin(2)), [Reclaim, GiveEnd, Occupy(3)];
    assert s == Lent().(release := Some(Release(2, false)));
    Unfold(s, q[..2], Occupy(3));
    Unfold(s, q[..1], GiveEnd);
    Unfold(s, [], Reclaim);
    assert q == q[..2] + [Occupy(3)] && q[..2] == q[..1] + [GiveEnd] && q[..1] == [] + [Reclaim];
  }

  /** Cell 2 uses a core of cell 1. */
  function Lent(): Core { Core(Some(1), Some(2), false, map[], {2}, None, None) }

  lemma LentCore()
    ensures After(New(), [Confer(1), Occupy(2), Start(2)]) == Lent()
  {
    var r := [Confer(1), Occupy(2), Start(2)];
    Unfold(New(), r[..2], Start(2));
    Unfold(New(), r[..1], Occupy(2));
    Unfold(New(), [], Confer(1));
    assert r == r[..2] + [Start(2)] && r[..2] == r[..1] + [Occupy(2)] && r[..1] == [] + [Confer(1)];
    assert Next(New(), Confer(1)) == New().(owner := Some(1));
    assert Next(New().(owner := Some(1)), Occupy(2)) == Lent().(workers := {});
  }

  // ----- reclamations in two parts

  /** A reclamation in two parts with nothing in between is a whole one. */
  lemma ReclaimPartsAreOne(s: Core)
    requires Inv(s) && s.owner.Some? && s.holder.Some? && s.holder != s.owner
    ensures Next(Next(s, ReclaimBegin), ReclaimEnd) == Next(s, Reclaim)
  {
  }

  /** A request that is reported as filed reaches the holder exactly when the core still is with the borrower that the
      reclamation found; otherwise a cell that does not hold the core is left with the flag. */
  lemma RequestReaches(s: Core, b: Cell)
    requires s.borrower == Some(b) && b in s.workers && Flag(s, b) == 0 && s.owner.Some?
    ensures var t := Next(s, ReclaimEnd);
            && Flag(t, b) == 1 && t.holder == s.holder
            && (Pending(t, b) <==> s.holder == Some(b))
            && (s.holder != Some(b) ==> forall c :: Pending(t, c) <==> Pending(s, c))
  {
  }

  /** Whatever whole operations come in between, a request that is reported as filed reaches the holder exactly when the
      borrower found at the beginning holds the core at the end. */
  lemma RequestReachesAfter(s: Core, run: seq<Action>, b: Cell)
    requires Inv(s) && Enabled(s, ReclaimBegin) && s.holder == Some(b) && forall a | a in run :: Whole(a)
    ensures var t := After(Next(s, ReclaimBegin), run);
            && t.borrower == Some(b)
            && (b in t.workers && Flag(t, b) == 0 && t.owner.Some? ==>
                (Pending(Next(t, ReclaimEnd), b) <==> t.holder == Some(b)))
  {
    BorrowerKept(Next(s, ReclaimBegin), run);
    var t := After(Next(s, ReclaimBegin), run);
    if b in t.workers && Flag(t, b) == 0 && t.owner.Some? { RequestReaches(t, b); }
  }

  /** What takes the core from cell b: a return or a release to somebody else, and a reclamation when b has no
      workers. */
  predicate Takes(s: Core, a: Action, b: Cell) {
    match a
    case Return => s.owner.Some? && s.owner != Some(b)
    case Give(c) => c == b && !(Flag(s, b) == 1 && s.owner == Some(b))
    case Reclaim => s.owner.Some? && s.owner != Some(b) && b !in s.workers
    case _ => false
  }

  lemma TakesExactly(s: Core, a: Action, b: Cell)
    requires s.holder == Some(b) && Whole(a)
    ensures Next(s, a).holder == Some(b) <==> !Takes(s, a, b)
  {
  }

  /** No step of the run takes the core from b. */
  predicate NeverTaken(s: Core, run: seq<Action>, b: Cell)
    decreases |run|
  {
    run == [] || (!Takes(s, run[0], b) && NeverTaken(Next(s, run[0]), run[1..], b))
  }

  /** b holds the core all the time. */
  predicate AlwaysHeld(s: Core, run: seq<Action>, b: Cell)
    decreases |run|
  {
    s.holder == Some(b) && (run == [] || AlwaysHeld(Next(s, run[0]), run[1..], b))
  }

  /** A cell holds the core throughout a run of whole operations exactly when none of them takes it away. */
  lemma {:induction false} HeldThroughout(s: Core, run: seq<Action>, b: Cell)
    requires s.holder == Some(b) && forall a | a in run :: Whole(a)
    ensures NeverTaken(s, run, b) <==> AlwaysHeld(s, run, b)
    decreases |run|
  {
    if run != [] {
      TakesExactly(s, run[0], b);
      assert forall a | a in run[1..] :: a in run;
      if !Takes(s, run[0], b) { HeldThroughout(Next(s, run[0]), run[1..], b); }
    }
  }

  lemma {:induction false} HeldAtEnd(s: Core, run: seq<Action>, b: Cell)
    requires AlwaysHeld(s, run, b)
    ensures After(s, run).holder == Some(b)
    decreases |run|
  {
    if run != [] {
      HeldAtEnd(Next(s, run[0]), run[1..], b);
      AfterFirst(s, run);
    }
  }

  lemma {:induction false} AfterFirst(s: Core, run: seq<Action>)
    requires run != []
    ensures After(s, run) == After(Next(s, run[0]), run[1..])
    decreases |run|
  {
    var n := |run| - 1;
    if n > 0 {
      AfterFirst(s, run[..n]);
      assert run[..n][1..] == run[1..][..n - 1];
    }
  }

  lemma {:induction false} NothingTakes(s: Core, run: seq<Action>, b: Cell)
    requires forall a | a in run :: !a.Return? && !a.Reclaim? && a != Give(b)
    ensures NeverTaken(s, run, b)
    decreases |run|
  {
    if run != [] {
      assert forall a | a in run[1..] :: a in run;
      NothingTakes(Next(s, run[0]), run[1..], b);
    }
  }

  /** So the request that a reclamation reports reaches the holder after every run that takes the core from nobody,
      among them all runs without returns, reclamations and releases by the borrower. */
  lemma RequestReachesIf(s: Core, run: seq<Action>, b: Cell)
    requires Inv(s) && Enabled(s, ReclaimBegin) && s.holder == Some(b) && forall a | a in run :: Whole(a)
    requires || NeverTaken(Next(s, ReclaimBegin), run, b)
             || forall a | a in run :: !a.Return? && !a.Reclaim? && a != Give(b)
    ensures var t := After(Next(s, ReclaimBegin), run);
            b in t.workers && Flag(t, b) == 0 ==> Pending(Next(t, ReclaimEnd), b)
  {
    var u := Next(s, ReclaimBegin);
    if forall a | a in run :: !a.Return? && !a.Reclaim? && a != Give(b) { NothingTakes(u, run, b); }
    HeldThroughout(u, run, b);
    HeldAtEnd(u, run, b);
    OwnerKept(u, run);
    RequestReachesAfter(s, run, b);
  }

  lemma {:induction false} OwnerKept(s: Core, run: seq<Action>)
    requires s.owner.Some? && forall a | a in run :: Whole(a)
    ensures After(s, run).owner.Some?
    decreases |run|
  {
    if run != [] {
      OwnerKept(s, run[..|run| - 1]);
      assert Whole(run[|run| - 1]);
    }
  }

  lemma {:induction false} BorrowerKept(s: Core, run: seq<Action>)
    requires forall a | a in run :: Whole(a)
    ensures After(s, run).borrower == s.borrower
    decreases |run|
  {
    if run != [] {
      BorrowerKept(s, run[..|run| - 1]);
      assert Whole(run[|run| - 1]);
    }
  }

  /** Cell 2 gives the core back after cell 1 has looked who holds it. The reclamation reports success, the flag is left
      with cell 2, and cell 3 gets the core without being asked for it. */
  lemma MisfiledRequest()
    ensures var s := After(New(), [Confer(1), Occupy(2), Start(2), ReclaimBegin, Give(2)]);
            && s.borrower == Some(2) && 2 in s.workers && Flag(s, 2) == 0
            && var t := Next(Next(s, ReclaimEnd), Occupy(3));
               Flag(t, 2) == 1 && t.holder == Some(3) && !Pending(t, 3)
  {
    var r := [Confer(1), Occupy(2), Start(2)];
    LentCore();
    Unfold(New(), r, ReclaimBegin);
    Unfold(New(), r + [ReclaimBegin], Give(2));
    assert r + [ReclaimBegin] + [Give(2)] == [Confer(1), Occupy(2), Start(2), ReclaimBegin, Give(2)];
    assert Next(Lent(), ReclaimBegin) == Lent().(borrower := Some(2));
  }

  lemma Unfold(s: Core, run: seq<Action>, a: Action)
    ensures After(s, run + [a]) == Next(After(s, run), a)
  {
    assert (run + [a])[..|run|] == run;
  }

  // ----- Core_allocator::alloc

  /** The cell holds the core, or the core has been asked back for it. */
  predicate Served(s: Core, cell: Cell) { s.holder == Some(cell) || (s.holder.Some? && Pending(s, s.holder.value)) }

  /** Nothing can be done to get the core for the cell, its owner. */
  predicate OutOfReach(s: Core, cell: Cell) { s.holder == Some(cell) || (s.owner.Some? && !ReclaimSucceeds(s)) }

  class CoreAllocator {
    const cores: array<Core>

    constructor (count: nat)
      ensures Valid() && cores.Length == count
    {
      cores := new Core[count](_ => New());
    }

    predicate Valid()
      reads this, cores
    {
      forall i | 0 <= i < cores.Length :: Inv(cores[i])
    }

    /** What has been gained so far, compared with the cores `was`. */
    ghost predicate Gained(was: seq<Core>, cell: Cell, gained: set<nat>, n: nat, quantity: nat)
      reads this, cores
    {
      && |was| == cores.Length && |gained| == n <= quantity
      && (forall i | 0 <= i < cores.Length :: cores[i].owner == was[i].owner && Inv(cores[i]) && Inv(was[i]))
      && (forall i: nat | i in gained :: i < cores.Length && was[i].holder != Some(cell) && Served(cores[i], cell))
      && (forall i: nat | i < cores.Length && i !in gained :: cores[i] == was[i])
    }

    ghost predicate AllHeld(cell: Cell, g: set<nat>)
      reads this, cores
    {
      forall i: nat | i in g :: i < cores.Length && cores[i].holder == Some(cell)
    }

    predicate NoneIdle(cpus: seq<nat>)
      reads this, cores
    {
      forall j | 0 <= j < |cpus| && cpus[j] < cores.Length :: !cores[cpus[j]].idle
    }

    /** A set of cores the cell owns, in ascending order. */
    predicate Reserved(cell: Cell, cpus: seq<nat>)
      reads this, cores
    {
      && (forall j | 0 <= j < |cpus| :: cpus[j] < cores.Length && cores[cpus[j]].owner == Some(cell))
      && (forall j, k | 0 <= j < k < |cpus| :: cpus[j] < cpus[k])
    }

    /** Core_allocator::alloc for a cell that owns its reserved cores: free reserved cores first, then free cores of
        others, and then its own cores from those who hold them: a core of others is gained only if no reserved core
        stays idle, and a core is asked back only if no core does. It falls short only when no core is free and no
        reserved core can be asked back. */
    method Alloc(quantity: nat, cell: Cell, reserved: seq<nat>) returns (n: nat, ghost gained: set<nat>)
      requires Valid() && Reserved(cell, reserved)
      modifies cores
      ensures Valid() && Gained(old(cores[..]), cell, gained, n, quantity)
      ensures n < quantity ==> forall i | 0 <= i < cores.Length :: !cores[i].idle
      ensures n < quantity ==> forall j | 0 <= j < |reserved| :: OutOfReach(cores[reserved[j]], cell)
      ensures (forall i | i in gained :: i in reserved) || NoneIdle(reserved)
      ensures AllHeld(cell, gained) || forall i | 0 <= i < cores.Length :: !cores[i].idle
    {
      ghost var was := cores[..];
      n, gained := TakeReserved(quantity, cell, reserved, was);
      if n == quantity { return; }
      n, gained := TakeIdle(quantity, cell, n, was, gained);
      if n == quantity { return; }
      n, gained := TakeBack(quantity, cell, reserved, n, was, gained);
    }

    /** Occupies core i if it is free. */
    method TakeOne(cell: Cell, i: nat, quantity: nat, n0: nat, ghost was: seq<Core>, ghost g0: set<nat>)
      returns (n: nat, ghost gained: set<nat>)
      requires Gained(was, cell, g0, n0, quantity) && AllHeld(cell, g0) && i < cores.Length && n0 < quantity
      modifies cores
      ensures Gained(was, cell, gained, n, quantity) && AllHeld(cell, gained)
      ensures !cores[i].idle && forall k | 0 <= k < cores.Length && k != i :: cores[k] == old(cores[k])
      ensures gained == g0 || gained == g0 + {i}
    {
      n, gained := n0, g0;
      if cores[i].holder.None? {
        cores[i] := Occupied(cores[i], cell);
        n, gained := n + 1, gained + {i};
      }
    }

    /** The first loop. */
    method TakeReserved(quantity: nat, cell: Cell, cpus: seq<nat>, ghost was: seq<Core>)
      returns (n: nat, ghost gained: set<nat>)
      requires Valid() && Reserved(cell, cpus) && was == cores[..]
      modifies cores
      ensures Gained(was, cell, gained, n, quantity) && AllHeld(cell, gained)
      ensures (forall i | i in gained :: i in cpus) && (n < quantity ==> NoneIdle(cpus))
    {
      n, gained := 0, {};
      var k := 0;
      while k < |cpus| && n < quantity
        invariant 0 <= k <= |cpus| && Gained(was, cell, gained, n, quantity) && AllHeld(cell, gained)
        invariant (forall i | i in gained :: i in cpus) && forall j | 0 <= j < k :: !cores[cpus[j]].idle
      {
        n, gained := TakeOne(cell, cpus[k], quantity, n, was, gained);
        k := k + 1;
      }
    }

    /** The second loop. */
    method TakeIdle(quantity: nat, cell: Cell, n0: nat, ghost was: seq<Core>, ghost g0: set<nat>)
      returns (n: nat, ghost gained: set<nat>)
      requires Gained(was, cell, g0, n0, quantity) && AllHeld(cell, g0)
      modifies cores
      ensures Gained(was, cell, gained, n, quantity) && AllHeld(cell, gained)
      ensures n < quantity ==> forall i | 0 <= i < cores.Length :: !cores[i].idle
      ensures forall i | 0 <= i < cores.Length && !old(cores[i].idle) :: !cores[i].idle
    {
      n, gained := n0, g0;
      var i := 0;
      while i < cores.Length && n < quantity
        invariant 0 <= i <= cores.Length && Gained(was, cell, gained, n, quantity) && AllHeld(cell, gained)
        invariant forall k | 0 <= k < i :: !cores[k].idle
        invariant forall k | 0 <= k < cores.Length && !old(cores[k].idle) :: !cores[k].idle
      {
        if cores[i].idle { n, gained := TakeOne(cell, i, quantity, n, was, gained); }
        i := i + 1;
      }
    }

    /** The third loop: reclaim what others hold. */
    method TakeBack(quantity: nat, cell: Cell, reserved: seq<nat>, n0: nat, ghost was: seq<Core>, ghost g0: set<nat>)
      returns (n: nat, ghost gained: set<nat>)
      requires Gained(was, cell, g0, n0, quantity) && AllHeld(cell, g0) && Reserved(cell, reserved)
      requires forall i | 0 <= i < cores.Length :: !cores[i].idle
      modifies cores
      ensures Gained(was, cell, gained, n, quantity) && forall i | 0 <= i < cores.Length :: !cores[i].idle
      ensures n < quantity ==> forall j | 0 <= j < |reserved| :: OutOfReach(cores[reserved[j]], cell)
    {
      n, gained := n0, g0;
      var k := 0;
      while k < |reserved| && n < quantity
        invariant 0 <= k <= |reserved| && Gained(was, cell, gained, n, quantity)
        invariant forall i | 0 <= i < cores.Length :: !cores[i].idle && cores[i].owner == old(cores[i].owner)
        invariant forall j | k <= j < |reserved| && reserved[j] in gained :: cores[reserved[j]].holder == Some(cell)
        invariant forall j | 0 <= j < k :: OutOfReach(cores[reserved[j]], cell)
      {
        var i := reserved[k];
        if cores[i].owner != cores[i].holder && cores[i].holder.Some? && ReclaimSucceeds(cores[i]) {
          ReclaimOne(cell, i, quantity, n, was, gained);
          n, gained := n + 1, gained + {i};
        }
        k := k + 1;
      }
    }

    method ReclaimOne(cell: Cell, i: nat, quantity: nat, n: nat, ghost was: seq<Core>, ghost gained: set<nat>)
      requires Gained(was, cell, gained, n, quantity) && n < quantity && i < cores.Length && i !in gained
      requires cores[i].owner == Some(cell) && cores[i].holder.Some? && cores[i].holder.value != cell
               && ReclaimSucceeds(cores[i])
      modifies cores
      ensures Gained(was, cell, gained + {i}, n + 1, quantity) && OutOfReach(cores[i], cell) && !cores[i].idle
      ensures forall k | 0 <= k < cores.Length && k != i :: cores[k] == old(cores[k])
    {
      ReclaimReports(cores[i]);
      StepInv(cores[i], Reclaim);
      cores[i] := Reclaimed(cores[i]);
    }
  }
}
