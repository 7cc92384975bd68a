/** The page tables of src/pte.cpp and include/pte.hpp: walking, looking up and updating in place. */
module PageTables {
  import opened Bits
  import opened Options
  import opened Counting
  import opened Machine
  import opened Radix
  import opened PageMaps
  import opened PageCells
  import opened RadixLeaks
  import Quotas

  /** TYPE_UP, TYPE_DN and TYPE_DF */
  datatype Change = Up | Down | Deferred

  /** The tables that were not charged to an account: freeing them raises its limit. */
  function Beyond(n: nat, used: nat): nat { if n <= used then 0 else n - used }

  /** From one state of an account to a later one, while the number of tables went from n0 to n1: the account was
      charged for exactly the tables that came and went, and at no time for more than `bound`. */
  predicate PaidFrom(a0: Quotas.Account, peak0: nat, n0: nat, a1: Quotas.Account, peak1: nat, n1: nat, bound: nat) {
    && a1.used <= a0.used + bound && a1.upli >= a0.upli && peak1 <= Quotas.Higher(peak0, a0.used + bound)
    && Quotas.Balance(a1) == Quotas.Balance(a0) + n0 - n1
    && a1.upli + Beyond(n1, a1.used) <= a0.upli + Beyond(n0, a0.used)
    && (Quotas.Sound(a0) ==> Quotas.Sound(a1))
  }

  lemma PaidTrans(a0: Quotas.Account, peak0: nat, n0: nat, a1: Quotas.Account, peak1: nat, n1: nat,
                  a2: Quotas.Account, peak2: nat, n2: nat, bound: nat)
    requires PaidFrom(a0, peak0, n0, a1, peak1, n1, bound) && PaidFrom(a1, peak1, n1, a2, peak2, n2, 0)
    ensures PaidFrom(a0, peak0, n0, a2, peak2, n2, bound)
  {
  }

  lemma ChargedPaid(a: Quotas.Account, peak0: nat, n0: nat, peak1: nat, n1: nat, bound: nat)
    requires n0 <= n1 <= n0 + bound && peak1 <= Quotas.Higher(peak0, a.used + (n1 - n0))
    ensures PaidFrom(a, peak0, n0, Quotas.Charged(a, n1 - n0), peak1, n1, bound)
  {
  }

  predicate SoundBoth(g: Quotas.Guarded) { Quotas.Sound(g.q) && Quotas.Sound(g.r) }

  /** The most that the limits of both accounts can come to. */
  function Limits(g: Quotas.Guarded, n: nat): nat { g.q.upli + g.r.upli + Beyond(n, g.q.used) }

  /** Page counts with a request are words. */
  predicate Countable(g: Quotas.Guarded, n: nat, req: nat) {
    g.r.used + Quotas.Higher(g.q.used, Limits(g, n)) + req < WORD
  }

  /** The same for a guard: at no time does usage rise above the limit, or above what it was before. */
  predicate CoveredFrom(g0: Quotas.Guarded, peak0: nat, n0: nat, g1: Quotas.Guarded, peak1: nat, n1: nat) {
    && SoundBoth(g1) && g1.q.upli >= g0.q.upli && g1.q.used <= Quotas.Higher(g0.q.used, g1.q.upli)
    && peak1 <= Quotas.Higher(peak0, Quotas.Higher(g0.q.used, g1.q.upli))
    && Quotas.Balance(g1.q) + Quotas.Balance(g1.r) == Quotas.Balance(g0.q) + Quotas.Balance(g0.r) + n0 - n1
    && g1.r.used == g0.r.used && Limits(g1, n1) <= Limits(g0, n0)
  }

  lemma CountableKept(g0: Quotas.Guarded, peak0: nat, n0: nat, g1: Quotas.Guarded, peak1: nat, n1: nat, req: nat)
    requires CoveredFrom(g0, peak0, n0, g1, peak1, n1) && Countable(g0, n0, req)
    ensures Countable(g1, n1, req)
  {
  }

  lemma CoveredStart(g: Quotas.Guarded, peak: nat, n: nat)
    requires SoundBoth(g)
    ensures CoveredFrom(g, peak, n, g, peak, n)
  {
  }

  /** A check keeps everything covered, and makes room if it is granted. */
  lemma CheckCovers(g: Quotas.Guarded, peak: nat, n: nat, req: nat)
    requires SoundBoth(g) && Countable(g, n, req)
    ensures var c := Quotas.Checked(g, req);
            && CoveredFrom(g, peak, n, c, peak, n) && Countable(c, n, req)
            && (Quotas.Granted(g, req) ==> c.q.used + req <= c.q.upli)
            && (!Quotas.Granted(g, req) ==> c == g)
  {
    Quotas.CheckReserves(g, req);
    if Quotas.HitLimit(g.q, req) && Quotas.Granted(g, req) {
      var k := Quotas.Shortfall(g.q, req);
      Quotas.ShortfallExact(g, req);
      Quotas.TransferSound(g.r, k, false);
      TakenLimits(g.q, k, Quotas.Surplus(g.r, k), n);
      assert Quotas.Given(g.r, k).upli == g.r.upli - k && Quotas.Given(g.r, k).used == g.r.used;
      var c := Quotas.Checked(g, req);
      CountableKept(g, peak, n, c, peak, n, req);
    }
  }

  lemma TakenLimits(a: Quotas.Account, k: nat, o: nat, n: nat)
    requires o <= k && a.upli + k < WORD
    ensures var b := Quotas.Taken(a, k, o);
            a.upli <= b.upli && b.used <= a.used && b.upli + Beyond(n, b.used) <= a.upli + Beyond(n, a.used) + k
  {
    Quotas.PlusSplit(a.upli, k);
  }

  /** An update that the guard pays for, after its check. */
  lemma UpdateCovers(g0: Quotas.Guarded, peak0: nat, n0: nat, g1: Quotas.Guarded, a2: Quotas.Account, peak2: nat,
                     n2: nat, bound: nat)
    requires CoveredFrom(g0, peak0, n0, g1, peak0, n0) && PaidFrom(g1.q, peak0, n0, a2, peak2, n2, bound)
    requires bound > 0 ==> g1.q.used + bound <= g1.q.upli
    ensures CoveredFrom(g0, peak0, n0, Quotas.Guarded(a2, g1.r), peak2, n2)
    ensures g1.q.used + bound <= g1.q.upli ==> a2.used <= a2.upli
  {
  }

  lemma CoveredTrans(g0: Quotas.Guarded, peak0: nat, n0: nat, g1: Quotas.Guarded, peak1: nat, n1: nat,
                     g2: Quotas.Guarded, peak2: nat, n2: nat)
    requires CoveredFrom(g0, peak0, n0, g1, peak1, n1) && CoveredFrom(g1, peak1, n1, g2, peak2, n2)
    ensures CoveredFrom(g0, peak0, n0, g2, peak2, n2)
  {
  }

  /** Above the lowest level a flush is asked for unless no translation was lost, at the lowest level never. */
  ghost predicate FlushOk(f: Format, was: Tables, now: Tables, l: nat, flush: bool) {
    (l == 0 ==> !flush) && (l > 0 && !flush ==> NothingLost(f, was, now))
  }

  /** The n pages at b are updated, and whether a flush is asked for is exactly said by the entries that were there. */
  ghost predicate FlushDone(f: Format, was: Tables, now: Tables, b: nat, n: nat, l: nat, r: nat, p: nat, a: nat,
                            flush: bool) {
    FlushOk(f, was, now, l, flush) && FlushIs(f, was, b, n, l, r, p, a, flush) && OutsideSame(f, was, now, b, n, l)
  }

  lemma FlushStart(f: Format, ts: Tables, b: nat, l: nat, r: nat, p: nat, a: nat)
    ensures FlushDone(f, ts, ts, b, 0, l, r, p, a, false)
  {
  }

  lemma FlushNext(f: Format, was: Tables, mid: Tables, now: Tables, b: nat, i: nat, k: nat, l: nat, r: nat, p: nat,
                  a: nat, flush: bool, more: bool)
    requires k == l * f.bits + r && b + i * Pow2(k) + Pow2(k) <= Space(f) && i * Pow2(k) >= 0
    requires FlushDone(f, was, mid, b, i * Pow2(k), l, r, p, a, flush)
    requires FlushDone(f, mid, now, b + i * Pow2(k), Pow2(k), l, r, p + i * Pow2(k), a, more)
    ensures FlushDone(f, was, now, b, i * Pow2(k) + Pow2(k), l, r, p, a, flush || more)
  {
    if l > 0 && !flush && !more { LostNext(f, was, mid, now); }
    ChunkMultiple(f, l, r, k, i);
    FlushChunk(f, was, mid, now, b, i * Pow2(k), Pow2(k), l, r, p, a, flush, more);
  }

  /** The first i chunks of order k, m pages, of the window at b are updated, or without a table for them left alone. */
  ghost predicate ChunksDone(f: Format, was: Tables, now: Tables, b: nat, i: nat, m: nat, k: nat, p: nat, a: nat,
                             req: nat, remove: bool, g0: Quotas.Guarded, peak0: nat, g: Quotas.Guarded, peak: nat)
    requires f.bits > 0
  {
    && UpdatedTo(f, was, now, b, m, k, p, a, remove && a != 0) && CoveredFrom(g0, peak0, |was|, g, peak, |now|)
    && (i == 0 ==> now == was && g == g0)
    && (i > 0 <==> m > 0)
    && (i > 0 && !remove ==> g.q.used <= g.q.upli && Quotas.Granted(g0, req))
  }

  lemma ChunksStart(f: Format, ts: Tables, b: nat, k: nat, p: nat, a: nat, req: nat, remove: bool, g: Quotas.Guarded,
                    peak: nat)
    requires f.bits > 0 && SoundBoth(g)
    ensures ChunksDone(f, ts, ts, b, 0, 0, k, p, a, req, remove, g, peak, g, peak)
  {
  }

  lemma ChunksNext(f: Format, was: Tables, mid: Tables, now: Tables, b: nat, i: nat, m: nat, k: nat, p: nat, a: nat,
                   req: nat, remove: bool, g0: Quotas.Guarded, peak0: nat, g1: Quotas.Guarded, peak1: nat,
                   g2: Quotas.Guarded, peak2: nat)
    requires f.bits > 0 && ChunksDone(f, was, mid, b, i, m, k, p, a, req, remove, g0, peak0, g1, peak1)
    requires CoveredFrom(g1, peak1, |mid|, g2, peak2, |now|)
    requires || Updated(f, mid, now, b + m, k, p + m, a)
             || (remove && a != 0 && SameView(f, mid, now) && UnmappedWindow(f, mid, b + m, k))
    requires !remove ==> g2.q.used <= g2.q.upli && Quotas.Granted(g1, req)
    ensures ChunksDone(f, was, now, b, i + 1, m + Pow2(k), k, p, a, req, remove, g0, peak0, g2, peak2)
  {
    CoveredTrans(g0, peak0, |was|, g1, peak1, |mid|, g2, peak2, |now|);
    UpdatedNext(f, was, mid, now, b, m, k, p, a, remove && a != 0);
  }

  /** All that the loop over chunks has done. */
  ghost predicate Turned(f: Format, was: Tables, now: Tables, b: nat, i: nat, m: nat, k: nat, l: nat, r: nat, p: nat,
                         a: nat, req: nat, remove: bool, g0: Quotas.Guarded, peak0: nat, g: Quotas.Guarded, peak: nat,
                         flush: bool)
    requires f.bits > 0
  {
    && ChunksDone(f, was, now, b, i, m, k, p, a, req, remove, g0, peak0, g, peak)
    && FlushDone(f, was, now, b, m, l, r, p, a, flush)
  }

  lemma TurnedStart(f: Format, ts: Tables, b: nat, k: nat, l: nat, r: nat, p: nat, a: nat, req: nat, remove: bool,
                    g: Quotas.Guarded, peak: nat)
    requires f.bits > 0 && SoundBoth(g)
    ensures Turned(f, ts, ts, b, 0, 0, k, l, r, p, a, req, remove, g, peak, g, peak, false)
  {
    FlushStart(f, ts, b, l, r, p, a);
    ChunksStart(f, ts, b, k, p, a, req, remove, g, peak);
  }

  lemma TurnedNext(f: Format, was: Tables, mid: Tables, now: Tables, b: nat, i: nat, m: nat, k: nat, l: nat, r: nat,
                   p: nat, a: nat, req: nat, remove: bool, g0: Quotas.Guarded, peak0: nat, g1: Quotas.Guarded,
                   peak1: nat, g2: Quotas.Guarded, peak2: nat, flush: bool, more: bool)
    requires f.bits > 0 && k == l * f.bits + r && m == i * Pow2(k) && b + m + Pow2(k) <= Space(f)
    requires Turned(f, was, mid, b, i, m, k, l, r, p, a, req, remove, g0, peak0, g1, peak1, flush)
    requires CoveredFrom(g1, peak1, |mid|, g2, peak2, |now|)
    requires || Updated(f, mid, now, b + m, k, p + m, a)
             || (remove && a != 0 && SameView(f, mid, now) && UnmappedWindow(f, mid, b + m, k))
    requires !remove ==> g2.q.used <= g2.q.upli && Quotas.Granted(g1, req)
    requires FlushDone(f, mid, now, b + m, Pow2(k), l, r, p + m, a, more)
    ensures Turned(f, was, now, b, i + 1, m + Pow2(k), k, l, r, p, a, req, remove, g0, peak0, g2, peak2, flush || more)
  {
    ChunksNext(f, was, mid, now, b, i, m, k, p, a, req, remove, g0, peak0, g1, peak1, g2, peak2);
    FlushNext(f, was, mid, now, b, i, k, l, r, p, a, flush, more);
  }

  /** The level and the order within it. */
  method OrderParts(f: Format, k: nat, cap: nat) returns (l: nat, r: nat)
    requires f.bits > 0 && k <= cap && LevelOf(f, cap) < f.levels
    ensures l == LevelOf(f, k) && r == RestOf(f, k) && l < f.levels && r < f.bits && k == l * f.bits + r
  {
    CapFits(f, k, cap);
    l, r := LevelOf(f, k), RestOf(f, k);
  }

  class Pte {
    const format: Format
    var tables: Tables
    ghost var home: Homes

    ghost predicate Valid()
      reads this
    {
      Sound(format, tables, home)
    }

    constructor (format: Format)
      requires Proper(format)
      ensures Valid() && this.format == format
      ensures forall v: nat :: View(format, tables, v) == Unmapped
      ensures Orphans(tables) == {} && forall v: nat, n: nat :: NoLargePage(format, tables, v, n)
    {
      this.format := format;
      tables := map[ROOT := Zeros(Fanout(format))];
      home := map[ROOT := Root];
      new;
      assert Within(tables, 0, ROOT);
    }

    /** Pte::lookup. The size is 0 for addresses that are not mapped. */
    method Lookup(v: nat) returns (size: nat, m: Mapping)
      requires Valid()
      ensures m == View(format, tables, v) && size == if m.Mapped? then m.size else 0
    {
      var d := Fanout(format);
      var l: nat, t: nat := format.levels, ROOT;
      while true
        invariant Reaches(format, tables, home, v, l, t)
        decreases l
      {
        ReachedTable(format, tables, home, v, l, t);
        var e := tables[t][Index(d, v, l)];
        if e.Empty? { return 0, Unmapped; }
        if e.Table? {
          t := e.page;
          l := l - 1;
        } else {
          size := Group(d, l, e.ord);
          m := Mapped(Or(RoundDown(e.frame, Pow2(e.ord)), v % size), e.attr, size);
          return;
        }
      }
    }

    // ----- Pte::walk

    /** Allocates a table for the empty entry of v at level l. */
    method AddTable(quota: Quotas.Quota, v: nat, l: nat, t: nat, ghost n: nat) returns (page: nat)
      requires Valid() && n < l && Reaches(format, tables, home, v, l, t)
      requires At(tables, t, Index(Fanout(format), v, l)) == Empty
      modifies this, quota
      ensures Valid() && Reaches(format, tables, home, v, l - 1, page)
      ensures SameView(format, old(tables), tables) && StillClear(format, old(tables), tables, n)
      ensures |tables| == |old(tables)| + 1 && quota.View() == Quotas.Charged(old(quota.View()), 1)
      ensures quota.peak == Quotas.Higher(old(quota.peak), quota.used)
      ensures Orphans(tables) == Orphans(old(tables)) && Blank(tables, page)
      ensures SameCells(format, old(tables), tables, n)
    {
      ghost var bound := UnusedPage(tables.Keys);
      assert bound !in tables;
      page :| page !in tables;
      quota.Alloc(1);
      AddedTable(format, tables, home, v, l, t, page, n);
      AddedOrphans(format, tables, home, v, l, t, page);
      AddedCells(format, tables, home, v, l, t, page, n);
      var i := Index(Fanout(format), v, l);
      home := home[page := Sub(home[t], i)];
      tables := Linked(Fanout(format), tables, t, i, page);
    }

    /** Pte::walk to the table that holds the entry of v of level n. At most one table is allocated for each level on
        the way, and only if `alloc` asks for it. */
    method Walk(quota: Quotas.Quota, v: nat, n: nat, alloc: bool) returns (r: Option<nat>)
      requires Valid() && n <= format.levels && NoLargePage(format, tables, v, n)
      modifies this, quota
      ensures Valid() && SameView(format, old(tables), tables) && StillClear(format, old(tables), tables, n)
      ensures r.Some? ==> Reaches(format, tables, home, v, n, r.value)
      ensures r.None? ==> !alloc && TableUnmapped(format, old(tables), v, n)
      ensures r.None? ==> tables == old(tables) && NoTable(format, tables, v, n)
      ensures r.Some? ==> FoundOrNew(format, old(tables), tables, v, n, r.value)
      ensures Orphans(tables) == Orphans(old(tables))
      ensures SameCells(format, old(tables), tables, n) && (r.None? ==> NoCells(format, old(tables), v, n))
      ensures 0 <= |tables| - |old(tables)| <= if alloc then format.levels - n else 0
      ensures quota.View() == Quotas.Charged(old(quota.View()), |tables| - |old(tables)|)
      ensures quota.peak <= Quotas.Higher(old(quota.peak), quota.used)
    {
      var l: nat, t: nat := format.levels, ROOT;
      while l != n
        invariant n <= l <= format.levels && Valid() && Reaches(format, tables, home, v, l, t)
        invariant SameView(format, old(tables), tables) && StillClear(format, old(tables), tables, n)
        invariant 0 <= |tables| - |old(tables)| <= if alloc then format.levels - l else 0
        invariant quota.View() == Quotas.Charged(old(quota.View()), |tables| - |old(tables)|)
        invariant quota.peak <= Quotas.Higher(old(quota.peak), quota.used)
        invariant tables == old(tables) || (alloc && Blank(tables, t) && NoTable(format, old(tables), v, n))
        invariant Orphans(tables) == Orphans(old(tables)) && SameCells(format, old(tables), tables, n)
        decreases l
      {
        ReachedTable(format, tables, home, v, l, t);
        var e := tables[t][Index(Fanout(format), v, l)];
        NoLeafAbove(format, tables, home, v, l, t, n);
        if e.Empty? {
          if !alloc {
            EmptyAbove(format, tables, home, v, l, t, n);
            SameUnmapped(format, old(tables), tables, v, n);
            NoTableBehind(format, tables, home, v, l, t, n);
            AbsentCells(format, tables, home, v, l, t, n);
            return None;
          }
          if tables == old(tables) { NoTableBehind(format, tables, home, v, l, t, n); }
          ghost var mid := tables;
          t := AddTable(quota, v, l, t, n);
          ClearNext(format, old(tables), mid, tables, n);
          SameCellsNext(format, old(tables), mid, tables, n);
        } else {
          t := e.page;
        }
        l := l - 1;
      }
      return Some(t);
    }

    // ----- Pte::update

    twostate predicate Paid(quota: Quotas.Quota, bound: nat)
      reads this, quota
    {
      PaidFrom(old(quota.View()), old(quota.peak), |old(tables)|, quota.View(), quota.peak, |tables|, bound)
    }

    /** One entry of the loop in Pte::update. */
    method UpdateEntry(quota: Quotas.Quota, v: nat, l: nat, t: nat, i: nat, e: Entry, change: Change)
      returns (flush: bool)
      requires Valid() && Reaches(format, tables, home, v, l, t) && i < Fanout(format) && !e.Table?
      modifies this, quota
      ensures Valid() && Reaches(format, tables, home, v, l, t) && Paid(quota, 0)
      ensures WroteOne(format, old(tables), tables, v, l, i, e) && StillClear(format, old(tables), tables, l)
      ensures l == 0 ==> !flush
      ensures !flush && l > 0 ==> NothingLost(format, old(tables), tables)
      ensures LeftOne(format, old(tables), tables, t, i, l > 0 && change != Deferred)
      ensures flush <==> l > 0 && Changes(At(old(tables), t, i), e)
      ensures CellsKept(format, old(tables), tables, v, l, i) && OthersKept(old(tables), tables, t, i, Fanout(format))
    {
      var drop := l > 0 && change != Deferred;
      OverwroteEntry(format, tables, home, v, l, t, i, e, drop);
      OverwroteCount(format, tables, home, t, i, e, drop);
      OverwroteLeft(format, tables, home, t, i, e, drop);
      OverwroteCells(format, tables, home, v, l, t, i, e, drop);
      ghost var now := Overwritten(tables, t, i, e, drop);
      var was := tables[t][i];
      flush := !was.Empty? && l > 0 && was != e;
      home := Pruned(home, home[t], i);
      if was.Table? && drop {
        tables := tables - {was.page};
        quota.Free(1);
      }
      tables := tables[t := tables[t][i := e]];
      assert tables == now;
    }

    /** One turn, and what the loop has done by then. */
    method WriteOne(quota: Quotas.Quota, v: nat, l: nat, r: nat, p: nat, a: nat, change: Change, t: nat, i: nat,
                    flush: bool, ghost was: Tables, ghost a0: Quotas.Account, ghost peak0: nat)
      returns (flush': bool)
      requires Valid() && Reaches(format, tables, home, v, l, t) && i < Pow2(r)
      requires Index(Fanout(format), v, l) + Pow2(r) <= Fanout(format)
      requires GroupDone(format, was, tables, v, l, r, p, a, t, i, l > 0 && change != Deferred, flush)
      requires PaidFrom(a0, peak0, |was|, quota.View(), quota.peak, |tables|, 0)
      requires GroupCells(format, was, tables, v, l, r, p, a, t, i, flush)
      modifies this, quota
      ensures Valid() && Reaches(format, tables, home, v, l, t)
      ensures PaidFrom(a0, peak0, |was|, quota.View(), quota.peak, |tables|, 0)
      ensures GroupDone(format, was, tables, v, l, r, p, a, t, i + 1, l > 0 && change != Deferred, flush')
      ensures GroupCells(format, was, tables, v, l, r, p, a, t, i + 1, flush')
    {
      ghost var mid, a1, peak1 := tables, quota.View(), quota.peak;
      var f := UpdateEntry(quota, v, l, t, Index(Fanout(format), v, l) + i, NewEntry(format, l, r, p, a, i), change);
      GroupNext(format, was, mid, tables, v, l, r, p, a, t, i, l > 0 && change != Deferred, flush, f);
      GroupCellsNext(format, was, mid, tables, v, l, r, p, a, t, i, flush, f);
      PaidTrans(a0, peak0, |was|, a1, peak1, |mid|, quota.View(), quota.peak, |tables|, 0);
      flush' := flush || f;
    }

    /** The loop in Pte::update. */
    method WriteGroup(quota: Quotas.Quota, v: nat, l: nat, r: nat, p: nat, a: nat, change: Change, t: nat)
      returns (flush: bool)
      requires Valid() && Reaches(format, tables, home, v, l, t)
               && Index(Fanout(format), v, l) + Pow2(r) <= Fanout(format)
      modifies this, quota
      ensures Valid() && Paid(quota, 0)
      ensures GroupDone(format, old(tables), tables, v, l, r, p, a, t, Pow2(r), l > 0 && change != Deferred, flush)
      ensures GroupCells(format, old(tables), tables, v, l, r, p, a, t, Pow2(r), flush)
    {
      flush := false;
      var n, i := Pow2(r), 0;
      ghost var was, a0, peak0 := tables, quota.View(), quota.peak;
      GroupStart(format, was, v, l, r, p, a, t, l > 0 && change != Deferred);
      GroupCellsStart(format, was, v, l, r, p, a, t);
      while i < n
        invariant 0 <= i <= n && Valid() && Reaches(format, tables, home, v, l, t)
        invariant PaidFrom(a0, peak0, |was|, quota.View(), quota.peak, |tables|, 0)
        invariant GroupCells(format, was, tables, v, l, r, p, a, t, i, flush)
        invariant GroupDone(format, was, tables, v, l, r, p, a, t, i, l > 0 && change != Deferred, flush)
      {
        flush := WriteOne(quota, v, l, r, p, a, change, t, i, flush, was, a0, peak0);
        i := i + 1;
      }
    }

    /** No orphan is adopted, and none is made exactly when the group that was overwritten points to no table, or to
        tables that are freed and point to none. */
    twostate predicate LeaksIff(v: nat, l: nat, r: nat, change: Change)
      reads this
    {
      && Orphans(old(tables)) <= Orphans(tables)
      && (Orphans(tables) == Orphans(old(tables)) <==>
          !Leaks(format, old(tables), v, l, Pow2(r), l > 0 && change != Deferred))
    }

    method UpdateAt(quota: Quotas.Quota, v: nat, l: nat, r: nat, o: nat, p: nat, a: nat, change: Change)
      returns (flush: bool)
      requires Valid() && AlignedWindow(format, v, l, r, o, p) && NoLargePage(format, tables, v, l)
      modifies this, quota
      ensures Valid() && StillClear(format, old(tables), tables, l)
      ensures Paid(quota, if change == Up then format.levels - l else 0)
      ensures change == Up || a == 0 ==> Updated(format, old(tables), tables, v, o, p, a)
      ensures || Updated(format, old(tables), tables, v, o, p, a)
              || (UnmappedWindow(format, old(tables), v, o) && SameView(format, old(tables), tables))
      ensures FlushDone(format, old(tables), tables, v, Pow2(o), l, r, p, a, flush)
      ensures LeaksIff(v, l, r, change)
    {
      Window(format, v, l, r, o, p, v);
      ghost var a0, peak0, n0 := quota.View(), quota.peak, |tables|;
      ghost var bound := if change == Up then format.levels - l else 0;
      var t := Walk(quota, v, l, change == Up);
      ghost var a1, peak1, n1 := quota.View(), quota.peak, |tables|;
      ChargedPaid(a0, peak0, n0, peak1, n1, bound);
      if t.None? {
        NoTableNoWindow(format, old(tables), v, l, r, o, p);
        NoTableFlush(format, tables, v, l, r, o, p, a);
        return false;
      }
      ghost var mid, homes := tables, home;
      flush := WriteGroup(quota, v, l, r, p, a, change, t.value);
      PaidTrans(a0, peak0, n0, a1, peak1, n1, quota.View(), quota.peak, |tables|, bound);
      LeaksBefore(format, old(tables), mid, tables, v, l, t.value, Pow2(r), l > 0 && change != Deferred);
      GroupIsWindow(format, old(tables), mid, tables, v, l, r, o, p, a);
      ClearNext(format, old(tables), mid, tables, l);
      WindowFlush(format, old(tables), mid, tables, homes, v, l, r, o, p, a, t.value, flush);
      if !flush && l > 0 { LostNext(format, old(tables), mid, tables); }
    }

    /** Pte::update for a window without a large page above its level. The flat map changes on the window and nowhere
        else, except that without permission to allocate a window that has no table is left unmapped. Where entries can
        be cached, no flush is asked for only when every translation that existed is still the same. */
    method Update(quota: Quotas.Quota, v: nat, o: nat, p: nat, a: nat, change: Change) returns (flush: bool)
      requires Valid() && AlignedWindow(format, v, o / format.bits, o % format.bits, o, p)
      requires NoLargePage(format, tables, v, o / format.bits)
      modifies this, quota
      ensures Valid() && StillClear(format, old(tables), tables, o / format.bits)
      ensures Paid(quota, if change == Up then format.levels - o / format.bits else 0)
      ensures change == Up || a == 0 ==> Updated(format, old(tables), tables, v, o, p, a)
      ensures || Updated(format, old(tables), tables, v, o, p, a)
              || (UnmappedWindow(format, old(tables), v, o) && SameView(format, old(tables), tables))
      ensures FlushDone(format, old(tables), tables, v, Pow2(o), o / format.bits, o % format.bits, p, a, flush)
      ensures LeaksIff(v, o / format.bits, o % format.bits, change)
    {
      flush := UpdateAt(quota, v, o / format.bits, o % format.bits, o, p, a, change);
    }

    // ----- updates under a reservation

    /** For requests of `req` pages. */
    predicate Usable(guard: Quotas.QuotaGuard, req: nat)
      reads this, guard, guard.q, guard.r
    {
      guard.q != guard.r && SoundBoth(guard.View()) && Countable(guard.View(), |tables|, req)
    }

    twostate predicate Covered(guard: Quotas.QuotaGuard)
      reads this, guard, guard.q, guard.r
    {
      CoveredFrom(old(guard.View()), old(guard.q.peak), |old(tables)|, guard.View(), guard.q.peak, |tables|)
    }

    /** The pages that Pte::check asks for before an update of order o, with eight-byte entries. */
    function Request(o: nat): nat { o / 512 + format.levels }

    /** The guard, or the account behind it, can pay for an update of order o. */
    predicate Affordable(g: Quotas.Guarded, o: nat) { Quotas.Granted(g, Request(o)) }

    /** Pte::check */
    method Check(guard: Quotas.QuotaGuard, o: nat) returns (ok: bool)
      requires Usable(guard, Request(o))
      modifies guard.q, guard.r
      ensures Covered(guard) && Usable(guard, Request(o))
      ensures ok <==> Affordable(old(guard.View()), o)
      ensures ok ==> guard.q.used + format.levels <= guard.q.upli
      ensures !ok ==> guard.View() == old(guard.View())
      ensures guard.q.peak == old(guard.q.peak)
    {
      ok := Ask(guard, Request(o));
    }

    method Ask(guard: Quotas.QuotaGuard, req: nat) returns (ok: bool)
      requires Usable(guard, req)
      modifies guard.q, guard.r
      ensures Covered(guard) && Usable(guard, req)
      ensures ok <==> Quotas.Granted(old(guard.View()), req)
      ensures ok ==> guard.q.used + req <= guard.q.upli
      ensures !ok ==> guard.View() == old(guard.View())
      ensures guard.q.peak == old(guard.q.peak)
    {
      CheckCovers(guard.View(), guard.q.peak, |tables|, req);
      ok := guard.Check(req);
    }

    /** One turn of the loops in Space_mem::update, for order k = l * bits + r. */
    method UpdateChunk(guard: Quotas.QuotaGuard, v: nat, k: nat, l: nat, r: nat, p: nat, a: nat, req: nat, remove: bool)
      returns (ok: bool, flush: bool)
      requires Valid() && AlignedWindow(format, v, l, r, k, p) && NoLargePage(format, tables, v, l)
      requires Usable(guard, req) && format.levels <= req
      modifies this, guard.q, guard.r
      ensures Valid() && StillClear(format, old(tables), tables, l) && Covered(guard) && Usable(guard, req)
      ensures ok <==> remove || Quotas.Granted(old(guard.View()), req)
      ensures !ok ==> tables == old(tables) && guard.View() == old(guard.View()) && guard.q.peak == old(guard.q.peak)
      ensures ok && !remove ==> guard.q.used <= guard.q.upli
      ensures ok && (!remove || a == 0) ==> Updated(format, old(tables), tables, v, k, p, a)
      ensures ok ==> || Updated(format, old(tables), tables, v, k, p, a)
                     || (UnmappedWindow(format, old(tables), v, k) && SameView(format, old(tables), tables))
      ensures if ok then FlushDone(format, old(tables), tables, v, Pow2(k), l, r, p, a, flush) else !flush
    {
      flush := false;
      ghost var g0, peak0, n0 := guard.View(), guard.q.peak, |tables|;
      CoveredStart(g0, peak0, n0);
      if !remove {
        ok := Ask(guard, req);
        if !ok { return; }
      }
      ghost var g1 := guard.View();
      flush := UpdateAt(guard.q, v, l, r, k, p, a, if remove then Down else Up);
      ok := true;
      UpdateCovers(g0, peak0, n0, g1, guard.q.View(), guard.q.peak, |tables|, if remove then 0 else format.levels - l);
      CountableKept(g0, peak0, n0, guard.View(), guard.q.peak, |tables|, req);
    }

    ghost predicate NoLargePages(b: nat, o: nat, l: nat)
      reads this
    {
      forall w: nat {:trigger NoLargePage(format, tables, w, l)} | b <= w < b + Pow2(o) ::
        NoLargePage(format, tables, w, l)
    }

    /** One turn, and what the loop has done by then. */
    method UpdateNext(guard: Quotas.QuotaGuard, b: nat, o: nat, p: nat, a: nat, k: nat, l: nat, r: nat, req: nat,
                      remove: bool, i: nat, m: nat, flush: bool, ghost was: Tables, ghost g0: Quotas.Guarded,
                      ghost peak0: nat)
      returns (ok: bool, flush': bool)
      requires Valid() && k <= o && l < format.levels && r < format.bits && k == l * format.bits + r
      requires i < Pow2(o - k) && m == i * Pow2(k)
      requires b + Pow2(o) <= Space(format) && Aligned(b, o) && Aligned(p, o)
      requires NoLargePages(b, o, l) && Usable(guard, req) && format.levels <= req
      requires Turned(format, was, tables, b, i, m, k, l, r, p, a, req, remove, g0, peak0, guard.View(), guard.q.peak,
                      flush)
      modifies this, guard.q, guard.r
      ensures Valid() && NoLargePages(b, o, l) && Usable(guard, req) && m + Pow2(k) == (i + 1) * Pow2(k)
      ensures ok ==> Turned(format, was, tables, b, i + 1, m + Pow2(k), k, l, r, p, a, req, remove, g0, peak0,
                            guard.View(), guard.q.peak, flush')
      ensures !ok ==> !remove && m < Pow2(o) && !Quotas.Granted(guard.View(), req) && flush' == flush
      ensures !ok ==> tables == old(tables) && guard.View() == old(guard.View()) && guard.q.peak == old(guard.q.peak)
    {
      Chunk(b, o, p, k, i);
      ghost var mid, g1, peak1 := tables, guard.View(), guard.q.peak;
      var f;
      ok, f := UpdateChunk(guard, b + m, k, l, r, p + m, a, req, remove);
      flush' := flush || f;
      if ok {
        TurnedNext(format, was, mid, tables, b, i, m, k, l, r, p, a, req, remove, g0, peak0, g1, peak1, guard.View(),
                   guard.q.peak, flush, f);
      }
    }

    method UpdateChunks(guard: Quotas.QuotaGuard, b: nat, o: nat, p: nat, a: nat, k: nat, l: nat, r: nat, req: nat,
                        remove: bool)
      returns (ok: bool, flush: bool, ghost i: nat, ghost done: nat)
      requires Valid() && k <= o && l < format.levels && r < format.bits && k == l * format.bits + r
      requires b + Pow2(o) <= Space(format) && Aligned(b, o) && Aligned(p, o)
      requires NoLargePages(b, o, l) && Usable(guard, req) && format.levels <= req
      modifies this, guard.q, guard.r
      ensures Valid() && Turned(format, old(tables), tables, b, i, done, k, l, r, p, a, req, remove, old(guard.View()),
                                old(guard.q.peak), guard.View(), guard.q.peak, flush)
      ensures if ok then done == Pow2(o) else !remove && done < Pow2(o) && !Quotas.Granted(guard.View(), req)
    {
      flush := false;
      var j, m: nat := 0, 0;
      ghost var was, g0, peak0 := tables, guard.View(), guard.q.peak;
      ChunksCover(o, k);
      TurnedStart(format, was, b, k, l, r, p, a, req, remove, g0, peak0);
      while j < Pow2(o - k)
        invariant 0 <= j <= Pow2(o - k) && m == j * Pow2(k)
        invariant Valid() && NoLargePages(b, o, l) && Usable(guard, req)
        invariant Turned(format, was, tables, b, j, m, k, l, r, p, a, req, remove, g0, peak0, guard.View(),
                         guard.q.peak, flush)
      {
        i, done := j, m;
        ok, flush := UpdateNext(guard, b, o, p, a, k, l, r, req, remove, j, m, flush, was, g0, peak0);
        if !ok { return; }
        j, m := j + 1, m + Pow2(k);
      }
      ok, i, done := true, j, m;
    }

    method UpdateWindow(guard: Quotas.QuotaGuard, b: nat, o: nat, p: nat, a: nat, k: nat, l: nat, r: nat, req: nat,
                        remove: bool)
      returns (ok: bool, flush: bool, ghost done: nat)
      requires Valid() && k <= o && l < format.levels && r < format.bits && k == l * format.bits + r
      requires b + Pow2(o) <= Space(format) && Aligned(b, o) && Aligned(p, o)
      requires NoLargePages(b, o, l) && Usable(guard, req) && format.levels <= req
      modifies this, guard.q, guard.r
      ensures Valid() && Covered(guard)
      ensures UpdatedTo(format, old(tables), tables, b, done, k, p, a, remove && a != 0)
      ensures if ok then done == Pow2(o) else !remove && done < Pow2(o) && !Quotas.Granted(guard.View(), req)
      ensures !remove ==> (done == 0 <==> !Quotas.Granted(old(guard.View()), req))
      ensures !remove && done > 0 ==> guard.q.used <= guard.q.upli
      ensures done == 0 ==> tables == old(tables) && guard.View() == old(guard.View())
      ensures FlushDone(format, old(tables), tables, b, done, l, r, p, a, flush)
    {
      ghost var i;
      ok, flush, i, done := UpdateChunks(guard, b, o, p, a, k, l, r, req, remove);
    }

    /** The loops of Space_mem::update over one set of tables, which hold pages of at most order `cap`. The whole window
        is updated, or its first `done` pages up to where the guard and the account behind it cannot pay for another
        update. After an update the usage is within the guard's limit, whatever it was before. */
    method UpdateRange(guard: Quotas.QuotaGuard, b: nat, o: nat, p: nat, a: nat, cap: nat, remove: bool)
      returns (ok: bool, flush: bool, ghost done: nat)
      requires Valid() && LevelOf(format, cap) < format.levels && b + Pow2(o) <= Space(format)
      requires Aligned(b, o) && Aligned(p, o) && Usable(guard, Request(Min(o, cap)))
      requires NoLargePages(b, o, LevelOf(format, Min(o, cap)))
      modifies this, guard.q, guard.r
      ensures Valid() && Covered(guard)
      ensures UpdatedTo(format, old(tables), tables, b, done, Min(o, cap), p, a, remove && a != 0)
      ensures if ok then done == Pow2(o) else !remove && done < Pow2(o) && !Affordable(guard.View(), Min(o, cap))
      ensures !remove ==> (done == 0 <==> !Affordable(old(guard.View()), Min(o, cap)))
      ensures !remove && done > 0 ==> guard.q.used <= guard.q.upli
      ensures done == 0 ==> tables == old(tables) && guard.View() == old(guard.View())
      ensures FlushDone(format, old(tables), tables, b, done, LevelOf(format, Min(o, cap)),
                        RestOf(format, Min(o, cap)), p, a, flush)
    {
      var k := Min(o, cap);
      var l, r := OrderParts(format, k, cap);
      ok, flush, done := UpdateWindow(guard, b, o, p, a, k, l, r, Request(k), remove);
    }
  }

  // ----- two runs

  /** A page that is mapped through all levels of tables, and then a large page over it: a table is left behind. */
  method LeakATable() returns (t: Pte)
    ensures t.Valid() && Orphans(t.tables) != {}
  {
    var f := Format(3, 1, false);
    t := new Pte(f);
    var q := new Quotas.Quota();
    assert Space(f) == 8 && Aligned(0, 0) && Aligned(0, 2);
    var flush := t.Update(q, 0, 0, 0, 1, Up);
    assert View(f, t.tables, 0) == Mapped(0, 1, 1);
    assert NoLargePage(f, t.tables, 0, 0);
    ClearHigher(Fanout(f), t.tables, 3, ROOT, 0, 0, 2);
    SmallPageLeaks(f, t.tables, t.home, 0, 2, 0, 2, 0, 0, true);
    flush := t.Update(q, 0, 2, 0, 1, Up);
  }

  /** Two pages that are mapped at once, and then one of them unmapped: the size of the other still is 2. */
  method KeepAStaleSize() returns (size: nat, m: Mapping, other: Mapping)
    ensures size == 2 && m.Mapped? && other == Unmapped
  {
    var f := Format(1, 2, true);
    var t := new Pte(f);
    var q := new Quotas.Quota();
    assert Space(f) == 4 && Aligned(0, 0) && Aligned(0, 1);
    var flush := t.Update(q, 0, 1, 0, 1, Up);
    assert View(f, t.tables, 1) == Mapped(1, 1, 2);
    flush := t.Update(q, 0, 0, 0, 0, Down);
    var none: nat;
    size, m := t.Lookup(1);
    none, other := t.Lookup(0);
  }
}
