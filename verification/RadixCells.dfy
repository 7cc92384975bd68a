/** The entry of a given level that an address has, if there is a table for it. */
module RadixCells {
  import opened Radix

  /** The entry of level m for v, looked up from table t of level l; empty if there is no table for it. */
  function CellOf(d: Fan, tables: Tables, l: nat, t: nat, v: nat, m: nat): Entry {
    var e := At(tables, t, Index(d, v, l));
    if l <= m then e else if e.Table? then CellOf(d, tables, l - 1, e.page, v, m) else Empty
  }

  lemma {:induction false} ReachCell(d: Fan, tables: Tables, l: nat, t: nat, v: nat, m: nat, u: nat)
    requires Reach(d, tables, l, t, v, m, u)
    ensures CellOf(d, tables, l, t, v, m) == At(tables, u, Index(d, v, m))
    decreases l
  {
    if l > m { ReachCell(d, tables, l - 1, At(tables, t, Index(d, v, l)).page, v, m, u); }
  }

  lemma {:induction false} NoCellBehind(d: Fan, tables: Tables, l: nat, t: nat, v: nat, m: nat, u: nat, n: nat)
    requires Reach(d, tables, l, t, v, m, u) && n < m && At(tables, u, Index(d, v, m)) == Empty
    ensures CellOf(d, tables, l, t, v, n) == Empty
    decreases l
  {
    if l > m { NoCellBehind(d, tables, l - 1, At(tables, t, Index(d, v, l)).page, v, m, u, n); }
  }

  /** Down to the level of table u nothing but entry i of u has changed. */
  predicate OnlyEntryAbove(d: Fan, tables: Tables, after: Tables, home: Homes, u: nat, i: nat)
    requires u in home
  {
    forall t, k | t in home && Depth(home[t]) <= Depth(home[u]) && 0 <= k < d && !(t == u && k == i) ::
      At(after, t, k) == At(tables, t, k)
  }

  lemma {:induction false} CellElsewhere(d: Fan, top: nat, tables: Tables, after: Tables, home: Homes,
                                         l: nat, t: nat, w: nat, m: nat, u: nat, i: nat)
    requires Inv(d, top, tables, home) && For(d, top, home, t, l, w) && m <= l
    requires u in home && Depth(home[u]) + m == top && OnlyEntryAbove(d, tables, after, home, u, i)
    requires !Hits(d, top, w, m, home[u], i)
    ensures CellOf(d, after, l, t, w, m) == CellOf(d, tables, l, t, w, m)
    decreases l
  {
    NextTable(d, top, tables, home, l, t, w);
    PlaceDepth(d, top, w, l);
    var k := Index(d, w, l);
    assert At(after, t, k) == At(tables, t, k);
    if l > m && At(tables, t, k).Table? {
      CellElsewhere(d, top, tables, after, home, l - 1, At(tables, t, k).page, w, m, u, i);
    }
  }

  /** Overwriting an entry of the table of v changes the entries of that level for exactly the addresses below it. */
  lemma OverwrittenCell(d: Fan, top: nat, tables: Tables, home: Homes, v: nat, l: nat, u: nat, i: nat, e: Entry,
                        drop: bool, w: nat)
    requires Inv(d, top, tables, home) && u in home && u in tables && i < |tables[u]|
    requires Reach(d, tables, top, ROOT, v, l, u) && l <= top && !Hits(d, top, w, l, PlaceOf(d, top, v, l), i)
    ensures CellOf(d, Overwritten(tables, u, i, e, drop), top, ROOT, w, l) == CellOf(d, tables, top, ROOT, w, l)
  {
    ReachFor(d, top, tables, home, top, ROOT, v, l, u);
    PlaceDepth(d, top, v, l);
    var after, was := Overwritten(tables, u, i, e, drop), tables[u][i];
    assert TableOk(d, top, tables, home, u);
    assert EntryOk(top, home, was, home[u], i);
    assert OnlyEntryAbove(d, tables, after, home, u, i);
    CellElsewhere(d, top, tables, after, home, top, ROOT, w, l, u, i);
  }

  /** Hooking in an empty table changes no entry of any level at or below it. */
  lemma {:induction false} LinkedCell(d: Fan, top: nat, tables: Tables, home: Homes, t: nat, i: nat, page: nat,
                                      l: nat, x: nat, w: nat, m: nat)
    requires Vacant(d, top, tables, home, t, i, page) && For(d, top, home, x, l, w) && m <= l
    requires Depth(home[t]) + m < top
    ensures CellOf(d, Linked(d, tables, t, i, page), l, x, w, m) == CellOf(d, tables, l, x, w, m)
    decreases l
  {
    NextTable(d, top, tables, home, l, x, w);
    PlaceDepth(d, top, w, l);
    var after, k := Linked(d, tables, t, i, page), Index(d, w, l);
    assert TableOk(d, top, tables, home, x);
    var e := At(tables, x, k);
    if l > m {
      if e.Table? {
        LinkedCell(d, top, tables, home, t, i, page, l - 1, e.page, w, m);
      } else if x == t && k == i {
        assert At(after, page, Index(d, w, l - 1)) == Empty;
      }
    }
  }
}
