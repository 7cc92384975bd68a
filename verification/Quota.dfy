/** Page accounts of include/quota.hpp. The amount of a transfer is any 64-bit word that user code chooses, so transfers
    and checks add and subtract words. Allocations and frees count pages that exist, and do not overflow. */
module Quotas {
  import opened Machine

  /** Addition and subtraction of words. */
  function Plus(a: nat, b: nat): nat { (a + b) % WORD }

  function Minus(a: nat, b: nat): nat { if b <= a then a - b else (a - b) % WORD }

  /** `used` pages are charged, `over` pages were freed without having been charged here, `upli` is the limit and
      `notr` the part of it reserved against transfers. */
  datatype Account = Account(used: nat, over: nat, upli: nat, notr: nat)

  function Empty(): Account { Account(0, 0, 0, 0) }

  /** What an account may still hand out; negative when it is over its limit. */
  function Balance(a: Account): int { a.upli - a.used }

  /** What every operation keeps. */
  predicate Sound(a: Account) { a.over <= a.upli }

  predicate HitLimit(a: Account, space: nat) { space > a.upli || a.used > a.upli - space }

  function Charged(a: Account, p: nat): Account { a.(used := a.used + p) }

  function Refunded(a: Account, p: nat): Account {
    if p <= a.used then a.(used := a.used - p)
    else Account(0, a.over + (p - a.used), a.upli + (p - a.used), a.notr)
  }

  /** The giver of Quota::free_up. */
  function Drained(a: Account): Account { a.(used := 0, over := 0, upli := 0) }

  /** The taker of Quota::free_up, which settles surplus against usage. */
  function Absorbed(a: Account, used: nat, upli: nat, over: nat): Account {
    var b := a.(used := a.used + used, upli := a.upli + upli, over := a.over + over);
    var s: nat := if b.used <= b.over then b.used else b.over;
    b.(used := b.used - s, over := b.over - s, upli := Minus(b.upli, s))
  }

  /** The test of Quota::transfer_to. */
  predicate Transfers(a: Account, n: nat, checkNotr: bool) {
    !HitLimit(a, 0) && Plus(a.used, n) <= Minus(a.upli, if checkNotr then a.notr else 0)
  }

  /** What that test is there to say: the account can give n pages and keep its usage and its reserve covered. */
  predicate CanGive(a: Account, n: nat, checkNotr: bool) {
    a.used <= a.upli && a.used + n + (if checkNotr then a.notr else 0) <= a.upli
  }

  /** How much surplus goes along with n pages. */
  function Surplus(a: Account, n: nat): nat { if a.over <= n then a.over else n }

  function Given(a: Account, n: nat): Account { a.(upli := Minus(a.upli, n), over := a.over - Surplus(a, n)) }

  function Taken(a: Account, n: nat, o: nat): Account {
    var b := a.(upli := Plus(a.upli, n));
    if a.used > 0 && o > 0 then
      var u: nat := if a.used <= o then a.used else o;
      b.(used := b.used - u, upli := Minus(b.upli, u), over := b.over + (o - u))
    else b
  }

  function Higher(a: nat, b: nat): nat { if a <= b then b else a }

  /** The fields above, changed in place. */
  class Quota {
    var used: nat
    var over: nat
    var upli: nat
    var notr: nat
    ghost var peak: nat      // the greatest usage so far

    function View(): Account
      reads this
    {
      Account(used, over, upli, notr)
    }

    constructor ()
      ensures View() == Empty() && peak == 0
    {
      used, over, upli, notr, peak := 0, 0, 0, 0, 0;
    }

    method Alloc(p: nat)
      modifies this
      ensures View() == Charged(old(View()), p) && peak == Higher(old(peak), used)
    {
      used := used + p;
      peak := Higher(peak, used);
    }

    method Free(p: nat)
      modifies this
      ensures View() == Refunded(old(View()), p) && peak == old(peak)
    {
      if p <= used {
        used := used - p;
        return;
      }
      over := over + (p - used);
      upli := upli + (p - used);
      used := 0;
    }

    method FreeUp(to: Quota)
      modifies this, to
      ensures this != to ==> View() == Drained(old(View()))
      ensures var a := if this == to then Drained(old(View())) else old(to.View());
              to.View() == Absorbed(a, old(used), old(upli), old(over))
      ensures to.peak == Higher(old(to.peak), old(used) + if this == to then 0 else old(to.used))
      ensures this != to ==> peak == old(peak)
    {
      var l, u, o := upli, used, over;
      upli, over, used := 0, 0, 0;
      to.used := to.used + u;
      to.peak := Higher(to.peak, to.used);
      to.upli := to.upli + l;
      to.over := to.over + o;
      if to.over > 0 && to.used > 0 {
        var s := if to.used <= to.over then to.used else to.over;
        to.used := to.used - s;
        to.over := to.over - s;
        to.upli := Minus(to.upli, s);
      }
    }

    method TransferTo(to: Quota, transfer: nat, checkNotr: bool) returns (ok: bool)
      modifies this, to
      ensures ok <==> Transfers(old(View()), transfer, checkNotr)
      ensures !ok ==> View() == old(View()) && to.View() == old(to.View())
      ensures ok && this != to ==> View() == Given(old(View()), transfer)
      ensures ok ==> var a := if this == to then Given(old(View()), transfer) else old(to.View());
                     to.View() == Taken(a, transfer, Surplus(old(View()), transfer))
      ensures peak == old(peak) && to.peak == old(to.peak)
    {
      if HitLimit(View(), 0) { return false; }
      var notForTransfer := if checkNotr then notr else 0;
      if Plus(used, transfer) > Minus(upli, notForTransfer) { return false; }
      upli := Minus(upli, transfer);
      var o := if over <= transfer then over else transfer;
      if o > 0 { over := over - o; }
      to.Receive(transfer, o);
      return true;
    }

    /** The part of a transfer under the taker's lock. */
    method Receive(transfer: nat, o: nat)
      modifies this
      ensures View() == Taken(old(View()), transfer, o) && peak == old(peak)
    {
      upli := Plus(upli, transfer);
      if used > 0 && o > 0 {
        var u := if used <= o then used else o;
        used := used - u;
        upli := Minus(upli, u);
        over := over + (o - u);
      }
    }

    method SetLimit(l: nat, h: nat, from: Quota) returns (ok: bool)
      modifies this, from
      ensures ok <==> Transfers(old(from.View()), h, true)
      ensures !ok ==> View() == old(View()) && from.View() == old(from.View())
      ensures ok && this != from ==> from.View() == Given(old(from.View()), h)
      ensures ok ==> var a := if this == from then Given(old(from.View()), h) else old(View());
                     View() == Taken(a, h, Surplus(old(from.View()), h)).(notr := l)
      ensures peak == old(peak) && from.peak == old(from.peak)
    {
      ok := from.TransferTo(this, h, true);
      if !ok { return; }
      notr := l;
    }
  }

  // ----- one operation

  /** All fields are words. */
  predicate Words(a: Account) { a.used < WORD && a.over < WORD && a.upli < WORD && a.notr < WORD }

  lemma PlusSplit(a: nat, b: nat)
    requires a < WORD && b < WORD
    ensures Plus(a, b) == if a + b < WORD then a + b else a + b - WORD
  {
  }

  lemma MinusSplit(a: nat, b: nat)
    requires a < WORD && b < WORD
    ensures Minus(a, b) == if b <= a then a - b else WORD + a - b
  {
    if b > a { assert (a - b) % WORD == WORD + a - b; }
  }

  /** With a reserve within the limit, the test says what it is there to say except for exactly those amounts whose sum
      with the usage wraps around and comes out small enough again. */
  lemma TestExact(a: Account, n: nat, checkNotr: bool)
    requires Words(a) && n < WORD && (checkNotr ==> a.notr <= a.upli)
    ensures var reserve := if checkNotr then a.notr else 0;
            (Transfers(a, n, checkNotr) <==> CanGive(a, n, checkNotr)) <==>
            !(a.used <= a.upli && WORD <= a.used + n <= WORD + a.upli - reserve)
  {
    PlusSplit(a.used, n);
  }

  /** When a transfer that passes takes more than the limit: with a reserve within the limit exactly when the sum in the
      test wraps around, otherwise also when the difference does. */
  lemma TransferUnderflow(a: Account, n: nat)
    requires Words(a) && n < WORD
    ensures Transfers(a, n, true) && n > a.upli <==>
            && a.used <= a.upli < n
            && (a.notr <= a.upli ==> WORD <= a.used + n <= WORD + a.upli - a.notr)
            && (a.notr > a.upli ==> a.used + n <= WORD + a.upli - a.notr || WORD <= a.used + n)
  {
    PlusSplit(a.used, n);
    MinusSplit(a.upli, a.notr);
  }

  /** An account whose reserve exceeds its limit hands out pages that nobody has. */
  lemma TransferCreatesPages()
    ensures var a := Account(0, 0, 1, 2);
            Transfers(a, 5, true) && Balance(Given(a, 5)) + Balance(Taken(Empty(), 5, 0)) > Balance(a)
  {
    MinusSplit(1, 2);
    MinusSplit(1, 5);
  }

  /** The greatest amount passes the test of an account that uses a single page: the giver's limit rises by one, that of
      a taker without a limit becomes the greatest word, and any other taker's falls by one. */
  lemma TransferWrapsAround()
    ensures var a, n := Account(1, 0, 10, 0), WORD - 1;
            && Transfers(a, n, true) && !CanGive(a, n, true) && Given(a, n).upli == 11
            && Taken(Empty(), n, 0).upli == WORD - 1 && Taken(Account(0, 0, 5, 0), n, 0).upli == 4
  {
    PlusSplit(1, WORD - 1);
    PlusSplit(0, WORD - 1);
    PlusSplit(5, WORD - 1);
    MinusSplit(10, WORD - 1);
  }

  /** When the guard on the sum matters: an amount that passes can be given exactly when its sum with the usage does not
      wrap around. */
  lemma SumGuard(a: Account, n: nat, checkNotr: bool)
    requires Words(a) && n < WORD && (checkNotr ==> a.notr <= a.upli) && Transfers(a, n, checkNotr)
    ensures CanGive(a, n, checkNotr) <==> a.used + n < WORD
  {
    PlusSplit(a.used, n);
  }

  lemma TransferSound(a: Account, n: nat, checkNotr: bool)
    requires Sound(a) && (checkNotr ==> a.notr <= a.upli) && Transfers(a, n, checkNotr) && a.used + n < WORD
    ensures n <= a.upli && Sound(Given(a, n)) && Balance(Given(a, n)) == Balance(a) - n && Given(a, n).notr == a.notr
    ensures Given(a, n).used <= Given(a, n).upli && (checkNotr ==> a.notr <= Given(a, n).upli)
  {
    PlusSplit(a.used, n);
  }

  lemma TakenSound(a: Account, n: nat, o: nat)
    requires Sound(a) && o <= n && a.upli + n < WORD
    ensures Sound(Taken(a, n, o)) && Balance(Taken(a, n, o)) == Balance(a) + n
  {
    PlusSplit(a.upli, n);
  }

  lemma AbsorbedSound(a: Account, used: nat, upli: nat, over: nat)
    requires Sound(a) && over <= upli
    ensures var b := Absorbed(a, used, upli, over);
            Sound(b) && Balance(b) == Balance(a) + upli - used && (b.used == 0 || b.over == 0)
  {
  }

  /** A transfer conserves surplus exactly when none comes along: a taker without usage drops it, and a taker with usage
      settles some of it. */
  lemma SurplusKept(a: Account, b: Account, n: nat, checkNotr: bool)
    requires Sound(a) && Sound(b) && (checkNotr ==> a.notr <= a.upli) && Transfers(a, n, checkNotr)
    ensures Given(a, n).over + Taken(b, n, Surplus(a, n)).over == a.over + b.over <==> a.over == 0 || n == 0
    ensures Given(a, n).over + Taken(b, n, Surplus(a, n)).over <= a.over + b.over
  {
    assert Surplus(a, n) == 0 <==> a.over == 0 || n == 0;
  }

  /** An account whose surplus is dropped. */
  lemma SurplusIsDropped()
    ensures var a := Account(0, 3, 3, 0);
            && Transfers(a, 3, true) && Surplus(a, 3) == 3
            && Given(a, 3).over + Taken(Empty(), 3, Surplus(a, 3)).over == 0
  {
  }

  // ----- runs over any number of accounts

  datatype Op = Alloc(a: nat, p: nat) | Free(a: nat, p: nat) | FreeUp(a: nat, to: nat)
    | TransferTo(a: nat, to: nat, n: nat, checkNotr: bool) | SetLimit(a: nat, l: nat, h: nat, from: nat)

  predicate Known(n: nat, op: Op) {
    op.a < n && (op.FreeUp? || op.TransferTo? ==> op.to < n) && (op.SetLimit? ==> op.from < n)
  }

  function Moved(bank: seq<Account>, a: nat, to: nat, n: nat, checkNotr: bool): (r: seq<Account>)
    requires a < |bank| && to < |bank|
    ensures |r| == |bank|
  {
    if !Transfers(bank[a], n, checkNotr) then bank
    else
      var mid := bank[a := Given(bank[a], n)];
      mid[to := Taken(mid[to], n, Surplus(bank[a], n))]
  }

  function Apply(bank: seq<Account>, op: Op): (r: seq<Account>)
    requires Known(|bank|, op)
    ensures |r| == |bank|
  {
    match op
    case Alloc(a, p) => bank[a := Charged(bank[a], p)]
    case Free(a, p) => bank[a := Refunded(bank[a], p)]
    case FreeUp(a, to) =>
      var mid := bank[a := Drained(bank[a])];
      mid[to := Absorbed(mid[to], bank[a].used, bank[a].upli, bank[a].over)]
    case TransferTo(a, to, n, checkNotr) => Moved(bank, a, to, n, checkNotr)
    case SetLimit(a, l, h, from) =>
      if !Transfers(bank[from], h, true) then bank
      else
        var mid := Moved(bank, from, a, h, true);
        mid[a := mid[a].(notr := l)]
  }

  function After(bank: seq<Account>, ops: seq<Op>): (r: seq<Account>)
    requires forall op | op in ops :: Known(|bank|, op)
    ensures |r| == |bank|
  {
    if ops == [] then bank else Apply(After(bank, ops[..|ops| - 1]), ops[|ops| - 1])
  }

  /** The pages an operation returns to the accounts (negative: takes from them). */
  function Effect(op: Op): int {
    match op
    case Alloc(_, p) => 0 - (p as int)
    case Free(_, p) => p
    case _ => 0
  }

  function Effects(ops: seq<Op>): int {
    if ops == [] then 0 else Effects(ops[..|ops| - 1]) + Effect(ops[|ops| - 1])
  }

  function Total(bank: seq<Account>): int {
    if bank == [] then 0 else Total(bank[..|bank| - 1]) + Balance(bank[|bank| - 1])
  }

  predicate AllSound(bank: seq<Account>) { forall i | 0 <= i < |bank| :: Sound(bank[i]) }

  /** If the transfer passes, the reserve is within the limit where it is respected, and neither sum wraps around. */
  predicate Covers(bank: seq<Account>, a: nat, to: nat, n: nat, checkNotr: bool)
    requires a < |bank| && to < |bank|
  {
    Transfers(bank[a], n, checkNotr) ==>
      && (checkNotr ==> bank[a].notr <= bank[a].upli) && bank[a].used + n < WORD
      && (if to == a then bank[a].upli < WORD else bank[to].upli + n < WORD)
  }

  predicate Reserved(bank: seq<Account>, op: Op)
    requires Known(|bank|, op)
  {
    && (op.TransferTo? ==> Covers(bank, op.a, op.to, op.n, op.checkNotr))
    && (op.SetLimit? ==> Covers(bank, op.from, op.a, op.h, true))
  }

  lemma {:induction false} TotalUpdate(bank: seq<Account>, i: nat, a: Account)
    requires i < |bank|
    ensures Total(bank[i := a]) == Total(bank) - Balance(bank[i]) + Balance(a)
    decreases |bank|
  {
    var n := |bank| - 1;
    if i == n {
      assert bank[i := a][..n] == bank[..n];
    } else {
      assert bank[i := a][..n] == bank[..n][i := a];
      TotalUpdate(bank[..n], i, a);
    }
  }

  lemma MovedConserves(bank: seq<Account>, a: nat, to: nat, n: nat, checkNotr: bool)
    requires a < |bank| && to < |bank| && AllSound(bank)
    requires Covers(bank, a, to, n, checkNotr)
    ensures AllSound(Moved(bank, a, to, n, checkNotr)) && Total(Moved(bank, a, to, n, checkNotr)) == Total(bank)
  {
    if Transfers(bank[a], n, checkNotr) {
      TransferSound(bank[a], n, checkNotr);
      var mid := bank[a := Given(bank[a], n)];
      TotalUpdate(bank, a, Given(bank[a], n));
      TakenSound(mid[to], n, Surplus(bank[a], n));
      TotalUpdate(mid, to, Taken(mid[to], n, Surplus(bank[a], n)));
    }
  }

  lemma ApplyConserves(bank: seq<Account>, op: Op)
    requires AllSound(bank) && Known(|bank|, op) && Reserved(bank, op)
    ensures AllSound(Apply(bank, op)) && Total(Apply(bank, op)) == Total(bank) + Effect(op)
  {
    match op
    case Alloc(a, p) => TotalUpdate(bank, a, Charged(bank[a], p));
    case Free(a, p) => TotalUpdate(bank, a, Refunded(bank[a], p));
    case FreeUp(a, to) => FreeUpConserves(bank, a, to);
    case TransferTo(a, to, n, checkNotr) => MovedConserves(bank, a, to, n, checkNotr);
    case SetLimit(a, l, h, from) => SetLimitConserves(bank, a, l, h, from);
  }

  lemma FreeUpConserves(bank: seq<Account>, a: nat, to: nat)
    requires a < |bank| && to < |bank| && AllSound(bank)
    ensures AllSound(Apply(bank, FreeUp(a, to))) && Total(Apply(bank, FreeUp(a, to))) == Total(bank)
  {
    var mid := bank[a := Drained(bank[a])];
    TotalUpdate(bank, a, Drained(bank[a]));
    AbsorbedSound(mid[to], bank[a].used, bank[a].upli, bank[a].over);
    TotalUpdate(mid, to, Absorbed(mid[to], bank[a].used, bank[a].upli, bank[a].over));
  }

  lemma SetLimitConserves(bank: seq<Account>, a: nat, l: nat, h: nat, from: nat)
    requires a < |bank| && from < |bank| && AllSound(bank) && Covers(bank, from, a, h, true)
    ensures AllSound(Apply(bank, SetLimit(a, l, h, from))) && Total(Apply(bank, SetLimit(a, l, h, from))) == Total(bank)
  {
    MovedConserves(bank, from, a, h, true);
    var mid := Moved(bank, from, a, h, true);
    TotalUpdate(mid, a, mid[a].(notr := l));
  }

  /** Conservation: whatever is transferred or drained between whichever accounts, the sum of limits minus usage
      changes by exactly the pages freed and allocated, and no account's surplus exceeds its limit, as long as the
      transfers that pass do not wrap around. */
  lemma {:induction false} Conservation(bank: seq<Account>, ops: seq<Op>)
    requires AllSound(bank) && forall op | op in ops :: Known(|bank|, op)
    requires forall k | 0 <= k < |ops| :: Reserved(After(bank, ops[..k]), ops[k])
    ensures AllSound(After(bank, ops)) && Total(After(bank, ops)) == Total(bank) + Effects(ops)
    decreases |ops|
  {
    if ops != [] {
      var n := |ops| - 1;
      assert forall k | 0 <= k < n :: ops[..n][..k] == ops[..k];
      Conservation(bank, ops[..n]);
      assert Reserved(After(bank, ops[..n]), ops[n]);
      ApplyConserves(After(bank, ops[..n]), ops[n]);
    }
  }

  // ----- without any condition: what wraps around

  /** Full turns of the word. */
  predicate Turns(d: int) { d % WORD == 0 }

  lemma TurnsSum(x: int, y: int)
    requires Turns(x) && Turns(y)
    ensures Turns(x + y)
  {
  }

  /** By how much the balances after a transfer and a draining differ from what they should be. */
  function GivenDrift(a: Account, n: nat): int { Balance(Given(a, n)) - (Balance(a) - n) }

  function TakenDrift(a: Account, n: nat, o: nat): int { Balance(Taken(a, n, o)) - (Balance(a) + n) }

  function AbsorbedDrift(a: Account, used: nat, upli: nat, over: nat): int {
    Balance(Absorbed(a, used, upli, over)) - (Balance(a) + upli - used)
  }

  lemma PlusTurns(a: nat, b: nat)
    ensures Turns(Plus(a, b) - (a + b))
  {
  }

  lemma MinusTurns(a: nat, b: nat)
    ensures Turns(Minus(a, b) - (a - b))
  {
  }

  lemma GivenTurns(a: Account, n: nat)
    ensures Turns(GivenDrift(a, n))
  {
    MinusTurns(a.upli, n);
    assert GivenDrift(a, n) == Minus(a.upli, n) - (a.upli - n);
  }

  lemma TakenTurns(a: Account, n: nat, o: nat)
    ensures Turns(TakenDrift(a, n, o))
  {
    var l := Plus(a.upli, n);
    PlusTurns(a.upli, n);
    if a.used > 0 && o > 0 {
      var u := if a.used <= o then a.used else o;
      MinusTurns(l, u);
      TurnsSum(l - (a.upli + n), Minus(l, u) - (l - u));
      assert TakenDrift(a, n, o) == l - (a.upli + n) + (Minus(l, u) - (l - u));
    } else {
      assert TakenDrift(a, n, o) == l - (a.upli + n);
    }
  }

  lemma AbsorbedTurns(a: Account, used: nat, upli: nat, over: nat)
    ensures Turns(AbsorbedDrift(a, used, upli, over))
  {
    var u, o, l := a.used + used, a.over + over, a.upli + upli;
    var s := if u <= o then u else o;
    MinusTurns(l, s);
    assert AbsorbedDrift(a, used, upli, over) == Minus(l, s) - (l - s);
  }

  function MovedDrift(bank: seq<Account>, a: nat, to: nat, n: nat, checkNotr: bool): int
    requires a < |bank| && to < |bank|
  {
    if !Transfers(bank[a], n, checkNotr) then 0
    else GivenDrift(bank[a], n) + TakenDrift(bank[a := Given(bank[a], n)][to], n, Surplus(bank[a], n))
  }

  function Drift(bank: seq<Account>, op: Op): int
    requires Known(|bank|, op)
  {
    match op
    case Alloc(_, _) => 0
    case Free(_, _) => 0
    case FreeUp(a, to) => AbsorbedDrift(bank[a := Drained(bank[a])][to], bank[a].used, bank[a].upli, bank[a].over)
    case TransferTo(a, to, n, checkNotr) => MovedDrift(bank, a, to, n, checkNotr)
    case SetLimit(a, l, h, from) => MovedDrift(bank, from, a, h, true)
  }

  function Drifts(bank: seq<Account>, ops: seq<Op>): int
    requires forall op | op in ops :: Known(|bank|, op)
  {
    if ops == [] then 0 else Drifts(bank, ops[..|ops| - 1]) + Drift(After(bank, ops[..|ops| - 1]), ops[|ops| - 1])
  }

  lemma DriftTurns(bank: seq<Account>, op: Op)
    requires Known(|bank|, op)
    ensures Turns(Drift(bank, op))
  {
    match op
    case Alloc(_, _) =>
    case Free(_, _) =>
    case FreeUp(a, to) =>
      AbsorbedTurns(bank[a := Drained(bank[a])][to], bank[a].used, bank[a].upli, bank[a].over);
    case TransferTo(a, to, n, checkNotr) => MovedTurns(bank, a, to, n, checkNotr);
    case SetLimit(a, l, h, from) => MovedTurns(bank, from, a, h, true);
  }

  lemma MovedTurns(bank: seq<Account>, a: nat, to: nat, n: nat, checkNotr: bool)
    requires a < |bank| && to < |bank|
    ensures Turns(MovedDrift(bank, a, to, n, checkNotr))
  {
    var b := bank[a := Given(bank[a], n)][to];
    GivenTurns(bank[a], n);
    TakenTurns(b, n, Surplus(bank[a], n));
    TurnsSum(GivenDrift(bank[a], n), TakenDrift(b, n, Surplus(bank[a], n)));
  }

  /** An account gives d, and one of the accounts then takes it, each with a drift. */
  lemma PassedOn(bank: seq<Account>, a: nat, g: Account, to: nat, t: Account, d: int, x: int, y: int)
    requires a < |bank| && to < |bank| && Balance(g) == Balance(bank[a]) - d + x
    requires Balance(t) == Balance(bank[a := g][to]) + d + y
    ensures Total(bank[a := g][to := t]) == Total(bank) + x + y
  {
    TotalUpdate(bank, a, g);
    TotalUpdate(bank[a := g], to, t);
  }

  lemma MovedTotal(bank: seq<Account>, a: nat, to: nat, n: nat, checkNotr: bool)
    requires a < |bank| && to < |bank|
    ensures Total(Moved(bank, a, to, n, checkNotr)) == Total(bank) + MovedDrift(bank, a, to, n, checkNotr)
  {
    if Transfers(bank[a], n, checkNotr) {
      var g, o := Given(bank[a], n), Surplus(bank[a], n);
      var b := bank[a := g][to];
      PassedOn(bank, a, g, to, Taken(b, n, o), n, GivenDrift(bank[a], n), TakenDrift(b, n, o));
    }
  }

  lemma FreeUpTotal(bank: seq<Account>, a: nat, to: nat)
    requires a < |bank| && to < |bank|
    ensures Total(Apply(bank, FreeUp(a, to))) == Total(bank) + Drift(bank, FreeUp(a, to))
  {
    var b, g := bank[a], Drained(bank[a]);
    var c := bank[a := g][to];
    PassedOn(bank, a, g, to, Absorbed(c, b.used, b.upli, b.over), Balance(b), 0,
             AbsorbedDrift(c, b.used, b.upli, b.over));
  }

  lemma SetLimitTotal(bank: seq<Account>, a: nat, l: nat, h: nat, from: nat)
    requires a < |bank| && from < |bank|
    ensures Total(Apply(bank, SetLimit(a, l, h, from))) == Total(bank) + Drift(bank, SetLimit(a, l, h, from))
  {
    MovedTotal(bank, from, a, h, true);
    var mid := Moved(bank, from, a, h, true);
    TotalUpdate(mid, a, mid[a].(notr := l));
  }

  lemma ApplyTotal(bank: seq<Account>, op: Op)
    requires Known(|bank|, op)
    ensures Total(Apply(bank, op)) == Total(bank) + Effect(op) + Drift(bank, op)
  {
    match op
    case Alloc(a, p) => TotalUpdate(bank, a, Charged(bank[a], p));
    case Free(a, p) => TotalUpdate(bank, a, Refunded(bank[a], p));
    case FreeUp(a, to) => FreeUpTotal(bank, a, to);
    case TransferTo(a, to, n, checkNotr) => MovedTotal(bank, a, to, n, checkNotr);
    case SetLimit(a, l, h, from) => SetLimitTotal(bank, a, l, h, from);
  }

  lemma {:induction false} RunTotal(bank: seq<Account>, ops: seq<Op>)
    requires forall op | op in ops :: Known(|bank|, op)
    ensures Total(After(bank, ops)) == Total(bank) + Effects(ops) + Drifts(bank, ops)
    decreases |ops|
  {
    if ops != [] {
      RunTotal(bank, ops[..|ops| - 1]);
      ApplyTotal(After(bank, ops[..|ops| - 1]), ops[|ops| - 1]);
    }
  }

  lemma {:induction false} DriftsTurn(bank: seq<Account>, ops: seq<Op>)
    requires forall op | op in ops :: Known(|bank|, op)
    ensures Turns(Drifts(bank, ops))
    decreases |ops|
  {
    if ops != [] {
      var n := |ops| - 1;
      DriftsTurn(bank, ops[..n]);
      DriftTurns(After(bank, ops[..n]), ops[n]);
      TurnsSum(Drifts(bank, ops[..n]), Drift(After(bank, ops[..n]), ops[n]));
    }
  }

  /** Over every run, whatever wraps around in it, limits minus usage change by the pages freed and allocated and by
      full turns of the word: as words they are conserved without any condition. */
  lemma ConservationOnWords(bank: seq<Account>, ops: seq<Op>)
    requires forall op | op in ops :: Known(|bank|, op)
    ensures Total(After(bank, ops)) == Total(bank) + Effects(ops) + Drifts(bank, ops) && Turns(Drifts(bank, ops))
  {
    RunTotal(bank, ops);
    DriftsTurn(bank, ops);
  }

  // ----- usage against surplus

  /** The pages an account owes: what is charged less what was freed beyond it. */
  function Owed(a: Account): int { a.used - a.over }

  function TotalOwed(bank: seq<Account>): int {
    if bank == [] then 0 else TotalOwed(bank[..|bank| - 1]) + Owed(bank[|bank| - 1])
  }

  /** The surplus that an operation forgets: that of a transfer to an account without usage. */
  function Dropped(bank: seq<Account>, op: Op): nat
    requires Known(|bank|, op)
  {
    match op
    case TransferTo(a, to, n, checkNotr) =>
      if Transfers(bank[a], n, checkNotr) && bank[to].used == 0 then Surplus(bank[a], n) else 0
    case SetLimit(a, l, h, from) =>
      if Transfers(bank[from], h, true) && bank[a].used == 0 then Surplus(bank[from], h) else 0
    case _ => 0
  }

  function AllDropped(bank: seq<Account>, ops: seq<Op>): nat
    requires forall op | op in ops :: Known(|bank|, op)
  {
    if ops == [] then 0
    else AllDropped(bank, ops[..|ops| - 1]) + Dropped(After(bank, ops[..|ops| - 1]), ops[|ops| - 1])
  }

  /** Freeing p pages settles exactly p: usage first, and surplus only where usage is used up; limit and surplus rise
      together, and the reserve stays. */
  lemma RefundSettles(a: Account, p: nat)
    ensures var b := Refunded(a, p);
            && Owed(b) == Owed(a) - p && b.notr == a.notr && b.upli - a.upli == b.over - a.over
            && (b.over == a.over || (b.over > a.over && b.used == 0))
  {
  }

  lemma {:induction false} OwedUpdate(bank: seq<Account>, i: nat, a: Account)
    requires i < |bank|
    ensures TotalOwed(bank[i := a]) == TotalOwed(bank) - Owed(bank[i]) + Owed(a)
    decreases |bank|
  {
    var n := |bank| - 1;
    if i == n {
      assert bank[i := a][..n] == bank[..n];
    } else {
      assert bank[i := a][..n] == bank[..n][i := a];
      OwedUpdate(bank[..n], i, a);
    }
  }

  lemma MovedOwed(bank: seq<Account>, a: nat, to: nat, n: nat, checkNotr: bool)
    requires a < |bank| && to < |bank|
    ensures TotalOwed(Moved(bank, a, to, n, checkNotr)) ==
            TotalOwed(bank) + Dropped(bank, TransferTo(a, to, n, checkNotr))
  {
    if Transfers(bank[a], n, checkNotr) {
      var mid := bank[a := Given(bank[a], n)];
      OwedUpdate(bank, a, Given(bank[a], n));
      OwedUpdate(mid, to, Taken(mid[to], n, Surplus(bank[a], n)));
    }
  }

  lemma ApplyOwed(bank: seq<Account>, op: Op)
    requires Known(|bank|, op)
    ensures TotalOwed(Apply(bank, op)) == TotalOwed(bank) - Effect(op) + Dropped(bank, op)
  {
    match op
    case Alloc(a, p) => OwedUpdate(bank, a, Charged(bank[a], p));
    case Free(a, p) => OwedUpdate(bank, a, Refunded(bank[a], p));
    case FreeUp(a, to) =>
      var mid := bank[a := Drained(bank[a])];
      OwedUpdate(bank, a, Drained(bank[a]));
      OwedUpdate(mid, to, Absorbed(mid[to], bank[a].used, bank[a].upli, bank[a].over));
    case TransferTo(a, to, n, checkNotr) => MovedOwed(bank, a, to, n, checkNotr);
    case SetLimit(a, l, h, from) =>
      MovedOwed(bank, from, a, h, true);
      var mid := Moved(bank, from, a, h, true);
      OwedUpdate(mid, a, mid[a].(notr := l));
  }

  /** Over every run, usage minus surplus of all accounts changes by exactly the pages allocated and freed and by the
      surplus that transfers to accounts without usage forget. */
  lemma {:induction false} OwedOverRuns(bank: seq<Account>, ops: seq<Op>)
    requires forall op | op in ops :: Known(|bank|, op)
    ensures TotalOwed(After(bank, ops)) == TotalOwed(bank) - Effects(ops) + AllDropped(bank, ops)
    decreases |ops|
  {
    if ops != [] {
      OwedOverRuns(bank, ops[..|ops| - 1]);
      ApplyOwed(After(bank, ops[..|ops| - 1]), ops[|ops| - 1]);
    }
  }

  // ----- Quota_guard

  /** How much Quota_guard::check asks of the account behind the guard. */
  function Shortfall(q: Account, req: nat): nat
    requires HitLimit(q, req)
  {
    if q.upli <= q.used then Plus(req, q.used - q.upli) else req - (q.upli - q.used)
  }

  /** The guard's own account and the one behind it. */
  datatype Guarded = Guarded(q: Account, r: Account)

  datatype GuardOp = Check(req: nat) | Use(p: nat) | Return(p: nat)

  predicate Granted(g: Guarded, req: nat) { !HitLimit(g.q, req) || Transfers(g.r, Shortfall(g.q, req), false) }

  function Checked(g: Guarded, req: nat): Guarded {
    if !HitLimit(g.q, req) || !Granted(g, req) then g
    else
      var n := Shortfall(g.q, req);
      Guarded(Taken(g.q, n, Surplus(g.r, n)), Given(g.r, n))
  }

  function GuardStep(g: Guarded, op: GuardOp): Guarded {
    match op
    case Check(req) => Checked(g, req)
    case Use(p) => g.(q := Charged(g.q, p))
    case Return(p) => g.(q := Refunded(g.q, p))
  }

  function GuardRun(g: Guarded, ops: seq<GuardOp>): Guarded {
    if ops == [] then g else GuardStep(GuardRun(g, ops[..|ops| - 1]), ops[|ops| - 1])
  }

  function GuardEffect(op: GuardOp): int {
    match op
    case Check(_) => 0
    case Use(p) => 0 - (p as int)
    case Return(p) => p
  }

  function GuardEffects(ops: seq<GuardOp>): int {
    if ops == [] then 0 else GuardEffects(ops[..|ops| - 1]) + GuardEffect(ops[|ops| - 1])
  }

  /** The guard goes out of scope. */
  function Closed(g: Guarded): Account { Absorbed(g.r, g.q.used, g.q.upli, g.q.over) }

  class QuotaGuard {
    const q: Quota
    const r: Quota

    ghost predicate Valid()
      reads this
    {
      q != r
    }

    function View(): Guarded
      reads this, q, r
    {
      Guarded(q.View(), r.View())
    }

    constructor (ref: Quota)
      ensures Valid() && fresh(q) && r == ref && View() == Guarded(Empty(), ref.View())
    {
      q := new Quota();
      r := ref;
    }

    method Check(req: nat) returns (ok: bool)
      requires Valid()
      modifies q, r
      ensures ok <==> Granted(old(View()), req)
      ensures View() == Checked(old(View()), req) && q.peak == old(q.peak) && r.peak == old(r.peak)
    {
      if !HitLimit(q.View(), req) { return true; }
      var want := req;
      if q.upli <= q.used { want := Plus(want, q.used - q.upli); } else { want := want - (q.upli - q.used); }
      ok := r.TransferTo(q, want, false);
    }

    /** The destructor. */
    method Close()
      requires Valid()
      modifies q, r
      ensures r.View() == Closed(old(View()))
    {
      q.FreeUp(r);
    }
  }

  /** The usage with the request, and the limits, do not overflow. */
  predicate Fits(g: Guarded, req: nat) {
    g.q.used + g.r.used + req < WORD && g.q.upli + g.r.upli < WORD
  }

  lemma ShortfallExact(g: Guarded, req: nat)
    requires Fits(g, req) && HitLimit(g.q, req)
    ensures Shortfall(g.q, req) == req + g.q.used - g.q.upli && g.r.used + Shortfall(g.q, req) < WORD
  {
  }

  /** A granted check leaves room for the request in the guard's account, whatever its state was. */
  lemma CheckReserves(g: Guarded, req: nat)
    requires Sound(g.q) && Sound(g.r) && Fits(g, req)
    ensures var c := Checked(g, req);
            && (Granted(g, req) <==> c.q.used + req <= c.q.upli)
            && Sound(c.q) && Sound(c.r) && Balance(c.q) + Balance(c.r) == Balance(g.q) + Balance(g.r)
  {
    if HitLimit(g.q, req) && Granted(g, req) {
      var n := Shortfall(g.q, req);
      ShortfallExact(g, req);
      TransferSound(g.r, n, false);
      TakenSound(g.q, n, Surplus(g.r, n));
    } else if HitLimit(g.q, req) {
      ShortfallExact(g, req);
    }
  }

  /** The surplus that a check settles against usage. */
  function Settled(g: Guarded, req: nat): nat
    requires HitLimit(g.q, req)
  {
    var o := Surplus(g.r, Shortfall(g.q, req));
    if g.q.used <= o then g.q.used else o
  }

  /** A granted check of any request makes room exactly when usage and request together are a word, or surplus of more
      than the excess is settled. */
  lemma RoomExactly(g: Guarded, req: nat)
    requires Words(g.q) && Words(g.r) && req < WORD && HitLimit(g.q, req) && Granted(g, req)
    ensures var c := Checked(g, req);
            c.q.used + req <= c.q.upli <==> g.q.used + req < WORD + Settled(g, req)
  {
    var n, u := Shortfall(g.q, req), Settled(g, req);
    if g.q.upli <= g.q.used { PlusSplit(req, g.q.used - g.q.upli); }
    PlusSplit(g.q.upli, n);
    MinusSplit(Plus(g.q.upli, n), u);
  }

  /** A request so large that the shortfall wraps around is granted without being covered. */
  lemma CheckWrapsAround()
    ensures var g := Guarded(Account(2, 0, 0, 0), Account(0, 0, 1, 0));
            Granted(g, WORD - 1) && Checked(g, WORD - 1).q.upli == 1
  {
    PlusSplit(WORD - 1, 2);
    PlusSplit(0, 1);
  }

  /** Over the life of a guard the account behind it changes by exactly the net pages that went through the guard, if
      no check overflows. */
  lemma {:induction false} GuardLifetime(r: Account, ops: seq<GuardOp>)
    requires Sound(r)
    requires forall k | 0 <= k < |ops| && ops[k].Check? :: Fits(GuardRun(Guarded(Empty(), r), ops[..k]), ops[k].req)
    ensures var g := GuardRun(Guarded(Empty(), r), ops);
            && Sound(g.q) && Sound(g.r) && Sound(Closed(g))
            && Balance(g.q) + Balance(g.r) == Balance(r) + GuardEffects(ops)
            && Balance(Closed(g)) == Balance(r) + GuardEffects(ops)
    decreases |ops|
  {
    if ops != [] {
      var n := |ops| - 1;
      assert forall k | 0 <= k < n :: ops[..n][..k] == ops[..k];
      GuardLifetime(r, ops[..n]);
      var g, op := GuardRun(Guarded(Empty(), r), ops[..n]), ops[n];
      GuardStepExact(g, op);
    }
    ClosedExact(GuardRun(Guarded(Empty(), r), ops));
  }

  lemma ClosedExact(g: Guarded)
    requires Sound(g.q) && Sound(g.r)
    ensures Sound(Closed(g)) && Balance(Closed(g)) == Balance(g.q) + Balance(g.r)
  {
    AbsorbedSound(g.r, g.q.used, g.q.upli, g.q.over);
  }

  lemma GuardStepExact(g: Guarded, op: GuardOp)
    requires Sound(g.q) && Sound(g.r) && (op.Check? ==> Fits(g, op.req))
    ensures var h := GuardStep(g, op);
            && Sound(h.q) && Sound(h.r)
            && Balance(h.q) + Balance(h.r) == Balance(g.q) + Balance(g.r) + GuardEffect(op)
  {
    if op.Check? { CheckReserves(g, op.req); }
  }

  function CheckDrift(g: Guarded, req: nat): int {
    if !HitLimit(g.q, req) || !Granted(g, req) then 0
    else
      var n := Shortfall(g.q, req);
      GivenDrift(g.r, n) + TakenDrift(g.q, n, Surplus(g.r, n))
  }

  lemma CheckTurns(g: Guarded, req: nat)
    ensures Turns(CheckDrift(g, req))
  {
    if HitLimit(g.q, req) && Granted(g, req) {
      var n := Shortfall(g.q, req);
      GivenTurns(g.r, n);
      TakenTurns(g.q, n, Surplus(g.r, n));
      TurnsSum(GivenDrift(g.r, n), TakenDrift(g.q, n, Surplus(g.r, n)));
    }
  }

  function GuardDrifts(g: Guarded, ops: seq<GuardOp>): int {
    if ops == [] then 0
    else
      var n := |ops| - 1;
      GuardDrifts(g, ops[..n]) + if ops[n].Check? then CheckDrift(GuardRun(g, ops[..n]), ops[n].req) else 0
  }

  lemma {:induction false} GuardRunTotal(g: Guarded, ops: seq<GuardOp>)
    ensures var h := GuardRun(g, ops);
            Balance(h.q) + Balance(h.r) == Balance(g.q) + Balance(g.r) + GuardEffects(ops) + GuardDrifts(g, ops)
    decreases |ops|
  {
    if ops != [] { GuardRunTotal(g, ops[..|ops| - 1]); }
  }

  lemma {:induction false} GuardDriftsTurn(g: Guarded, ops: seq<GuardOp>)
    ensures Turns(GuardDrifts(g, ops))
    decreases |ops|
  {
    if ops != [] {
      var n := |ops| - 1;
      GuardDriftsTurn(g, ops[..n]);
      if ops[n].Check? {
        CheckTurns(GuardRun(g, ops[..n]), ops[n].req);
        TurnsSum(GuardDrifts(g, ops[..n]), CheckDrift(GuardRun(g, ops[..n]), ops[n].req));
      }
    }
  }

  /** As words, guard and account together change by these pages in any case. */
  lemma GuardLifetimeOnWords(g: Guarded, ops: seq<GuardOp>)
    ensures var h := GuardRun(g, ops);
            Balance(h.q) + Balance(h.r) == Balance(g.q) + Balance(g.r) + GuardEffects(ops) + GuardDrifts(g, ops)
    ensures Turns(GuardDrifts(g, ops))
  {
    GuardRunTotal(g, ops);
    GuardDriftsTurn(g, ops);
  }

  /** And closing the guard adds no more than full turns. */
  lemma ClosedOnWords(g: Guarded)
    ensures Turns(Balance(Closed(g)) - (Balance(g.q) + Balance(g.r)))
  {
    AbsorbedTurns(g.r, g.q.used, g.q.upli, g.q.over);
    assert AbsorbedDrift(g.r, g.q.used, g.q.upli, g.q.over) == Balance(Closed(g)) - (Balance(g.q) + Balance(g.r));
  }

  /** A guard ignores the reserve of the account behind it: a check keeps the reserve within the limit exactly when it
      needs nothing, gets nothing, or needs no more than what lies beyond the reserve. */
  lemma ReserveKept(g: Guarded, req: nat)
    requires Sound(g.q) && Sound(g.r) && g.r.notr <= g.r.upli && Fits(g, req)
    ensures Checked(g, req).r.notr <= Checked(g, req).r.upli <==>
            !HitLimit(g.q, req) || !Granted(g, req) || Shortfall(g.q, req) <= g.r.upli - g.r.notr
  {
    if HitLimit(g.q, req) && Granted(g, req) {
      ShortfallExact(g, req);
      TransferSound(g.r, Shortfall(g.q, req), false);
    }
  }

  /** An account whose reserve exceeds the limit while a guard lives; closing the guard without use restores both. */
  lemma GuardDipsIntoReserve()
    ensures var g := Checked(Guarded(Empty(), Account(0, 0, 4, 4)), 3);
            g.r.upli < g.r.notr && Closed(g) == Account(0, 0, 4, 4)
  {
  }
}
