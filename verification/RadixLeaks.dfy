/** Tables that stay allocated although nothing points to them any more: overwriting an entry frees the table it pointed
    to, but not the tables below that one. */
module RadixLeaks {
  import opened Radix

  predicate PointsTo(tables: Tables, p: nat, k: nat, t: nat) { At(tables, p, k) == Table(t) }

  /** Table t is found from the root in n steps. */
  ghost predicate Within(tables: Tables, n: nat, t: nat) {
    if n == 0 then t == ROOT else exists p: nat, k: nat :: PointsTo(tables, p, k, t) && Within(tables, n - 1, p)
  }

  ghost predicate Connected(tables: Tables, t: nat) { exists n: nat :: Within(tables, n, t) }

  /** The allocated tables that no chain of entries from the root leads to. */
  ghost function Orphans(tables: Tables): set<nat> { set t | t in tables && !Connected(tables, t) }

  lemma {:induction false} WithinIsHome(d: Fan, top: nat, tables: Tables, home: Homes, n: nat, t: nat)
    requires Inv(d, top, tables, home) && Within(tables, n, t)
    ensures t in home
  {
    if n > 0 {
      var p: nat, k: nat :| PointsTo(tables, p, k, t) && Within(tables, n - 1, p);
      WithinIsHome(d, top, tables, home, n - 1, p);
      assert TableOk(d, top, tables, home, p);
      assert EntryOk(top, home, tables[p][k], home[p], k);
    }
  }

  lemma {:induction false} HomeIsWithin(d: Fan, top: nat, tables: Tables, home: Homes, t: nat) returns (n: nat)
    requires Inv(d, top, tables, home) && t in home
    ensures Within(tables, n, t)
    decreases Depth(home[t])
  {
    if t == ROOT {
      n := 0;
    } else {
      assert HasParent(tables, home, t);
      var p: nat, k: nat :| IsParent(tables, home, p, k, t);
      assert TableOk(d, top, tables, home, p);
      assert EntryOk(top, home, tables[p][k], home[p], k);
      var m := HomeIsWithin(d, top, tables, home, p);
      n := m + 1;
      assert PointsTo(tables, p, k, t) && Within(tables, n - 1, p);
    }
  }

  /** The invariant knows exactly the connected tables, so that the others are the orphans. */
  lemma OrphansAreHomeless(d: Fan, top: nat, tables: Tables, home: Homes)
    requires Inv(d, top, tables, home)
    ensures Orphans(tables) == tables.Keys - home.Keys && home.Keys <= tables.Keys
  {
    forall t | t in home ensures t in tables && Connected(tables, t) {
      assert TableOk(d, top, tables, home, t);
      var n := HomeIsWithin(d, top, tables, home, t);
    }
    forall t | Connected(tables, t) ensures t in home {
      var n: nat :| Within(tables, n, t);
      WithinIsHome(d, top, tables, home, n, t);
    }
  }

  /** Entry i of table u can be overwritten without leaving a table behind. */
  predicate Harmless(d: Fan, tables: Tables, u: nat, i: nat, drop: bool) {
    var e := At(tables, u, i);
    e.Table? ==> drop && forall k | 0 <= k < d :: !At(tables, e.page, k).Table?
  }

  /** What lies below an entry is below the table the entry points to. */
  lemma {:induction false} BelowEntry(d: Fan, top: nat, tables: Tables, home: Homes, u: nat, i: nat, w: nat)
    requires Inv(d, top, tables, home) && u in home && i < d && w in home && Beneath(home[w], Sub(home[u], i))
    ensures var e := At(tables, u, i);
            e.Table? && (w == e.page || exists k :: 0 <= k < d && At(tables, e.page, k).Table?)
    decreases Depth(home[w])
  {
    assert w != ROOT;
    assert HasParent(tables, home, w);
    var p: nat, k: nat :| IsParent(tables, home, p, k, w);
    assert TableOk(d, top, tables, home, p) && TableOk(d, top, tables, home, u);
    assert EntryOk(top, home, tables[p][k], home[p], k);
    if home[w] != Sub(home[u], i) {
      BelowEntry(d, top, tables, home, u, i, p);
      if p == At(tables, u, i).page { assert At(tables, p, k).Table?; }
    }
  }

  /** The table an entry points to, and the tables that one points to, are below the entry. */
  lemma EntryBelow(d: Fan, top: nat, tables: Tables, home: Homes, u: nat, i: nat)
    requires Inv(d, top, tables, home) && u in home && i < d && At(tables, u, i).Table?
    ensures var c := At(tables, u, i).page;
            && c in home && c != u && c in tables && Beneath(home[c], Sub(home[u], i))
            && forall k | 0 <= k < d && At(tables, c, k).Table? ::
                 var g := At(tables, c, k).page;
                 g in home && g in tables && g != c && Beneath(home[g], Sub(home[u], i))
  {
    assert TableOk(d, top, tables, home, u);
    assert EntryOk(top, home, tables[u][i], home[u], i);
    var c := At(tables, u, i).page;
    assert TableOk(d, top, tables, home, c);
    forall k | 0 <= k < d && At(tables, c, k).Table?
      ensures var g := At(tables, c, k).page;
              g in home && g in tables && g != c && Beneath(home[g], Sub(home[u], i)) {
      assert EntryOk(top, home, tables[c][k], home[c], k);
      assert TableOk(d, top, tables, home, At(tables, c, k).page);
    }
  }

  lemma OrphansAfter(d: Fan, top: nat, tables: Tables, home: Homes, u: nat, i: nat, e: Entry, drop: bool)
    requires Inv(d, top, tables, home) && u in home && u in tables && i < |tables[u]| && !e.Table?
    ensures var after, was := Overwritten(tables, u, i, e, drop), tables[u][i];
            && Orphans(after) == after.Keys - Pruned(home, home[u], i).Keys
            && after.Keys == tables.Keys - (if drop && was.Table? then {was.page} else {})
            && Orphans(tables) == tables.Keys - home.Keys
  {
    var after, was := Overwritten(tables, u, i, e, drop), tables[u][i];
    OverwriteInv(d, top, tables, home, u, i, e, drop);
    OrphansAreHomeless(d, top, tables, home);
    OrphansAreHomeless(d, top, after, Pruned(home, home[u], i));
    assert TableOk(d, top, tables, home, u);
    if was.Table? { EntryBelow(d, top, tables, home, u, i); }
  }

  /** Overwriting an entry never adopts an orphan, and makes none exactly when the entry is no pointer, or when the
      table it points to is freed and points to no table. */
  lemma OverwriteOrphans(d: Fan, top: nat, tables: Tables, home: Homes, u: nat, i: nat, e: Entry, drop: bool)
    requires Inv(d, top, tables, home) && u in home && u in tables && i < |tables[u]| && !e.Table?
    ensures Orphans(tables) <= Orphans(Overwritten(tables, u, i, e, drop))
    ensures Orphans(Overwritten(tables, u, i, e, drop)) == Orphans(tables) <==> Harmless(d, tables, u, i, drop)
  {
    var after, was, next := Overwritten(tables, u, i, e, drop), tables[u][i], Pruned(home, home[u], i);
    OrphansAfter(d, top, tables, home, u, i, e, drop);
    assert TableOk(d, top, tables, home, u) && At(tables, u, i) == was;
    if was.Table? { EntryBelow(d, top, tables, home, u, i); }
    if Harmless(d, tables, u, i, drop) {
      forall w | w in home && w !in next ensures w !in after {
        BelowEntry(d, top, tables, home, u, i, w);
      }
    } else if drop {
      var k :| 0 <= k < d && At(tables, was.page, k).Table?;
      var g := At(tables, was.page, k).page;
      assert g in Orphans(after) && g !in Orphans(tables);
    } else {
      assert was.page in Orphans(after) && was.page !in Orphans(tables);
    }
  }

  /** Overwriting one entry does not change the case of another one. */
  lemma OtherEntries(d: Fan, top: nat, tables: Tables, home: Homes, u: nat, i: nat, e: Entry, drop: bool, k: nat)
    requires Inv(d, top, tables, home) && u in home && u in tables && i < |tables[u]| && !e.Table? && k < d && k != i
    ensures Harmless(d, Overwritten(tables, u, i, e, drop), u, k, drop) <==> Harmless(d, tables, u, k, drop)
  {
    assert TableOk(d, top, tables, home, u);
    assert EntryOk(top, home, tables[u][i], home[u], i);
    assert EntryOk(top, home, tables[u][k], home[u], k);
    var after, c := Overwritten(tables, u, i, e, drop), tables[u][k];
    assert At(after, u, k) == c == At(tables, u, k);
    if c.Table? {
      EntryBelow(d, top, tables, home, u, k);
      assert forall j :: At(after, c.page, j) == At(tables, c.page, j);
    }
  }

  /** A new table hooked into an empty entry is no orphan and makes none. */
  lemma LinkedOrphans(d: Fan, top: nat, tables: Tables, home: Homes, t: nat, i: nat, page: nat)
    requires Vacant(d, top, tables, home, t, i, page)
    ensures Orphans(Linked(d, tables, t, i, page)) == Orphans(tables)
  {
    var after, next := Linked(d, tables, t, i, page), home[page := Sub(home[t], i)];
    LinkedInv(d, top, tables, home, t, i, page);
    OrphansAreHomeless(d, top, tables, home);
    OrphansAreHomeless(d, top, after, next);
    assert after.Keys == tables.Keys + {page} && next.Keys == home.Keys + {page};
  }

  // ----- a table that is left behind

  /** One page mapped through tables 1, 2 and 3 of levels 2, 1 and 0. */
  function ThreeLevels(): Tables {
    map[ROOT := [Table(1), Empty], 1 := [Table(2), Empty], 2 := [Table(3), Empty], 3 := [Leaf(7, 1, 0), Empty]]
  }

  function ThreeHomes(): Homes {
    map[ROOT := Root, 1 := Sub(Root, 0), 2 := Sub(Sub(Root, 0), 0), 3 := Sub(Sub(Sub(Root, 0), 0), 0)]
  }

  lemma ThreeLevelsOk()
    ensures Inv(2, 3, ThreeLevels(), ThreeHomes())
  {
    var ts, hs := ThreeLevels(), ThreeHomes();
    assert Depth(hs[ROOT]) == 0 && Depth(hs[1]) == 1 && Depth(hs[2]) == 2;
    assert IsParent(ts, hs, ROOT, 0, 1) && IsParent(ts, hs, 1, 0, 2) && IsParent(ts, hs, 2, 0, 3);
  }

  /** Mapping a large page over it frees table 2 and leaves table 3 behind. */
  lemma LeakedTable()
    ensures Inv(2, 3, ThreeLevels(), ThreeHomes()) && Orphans(ThreeLevels()) == {}
    ensures var after := Overwritten(ThreeLevels(), 1, 0, Leaf(4, 1, 0), true);
            2 !in after && 3 in after && 3 in Orphans(after)
  {
    ThreeLevelsOk();
    var ts, hs := ThreeLevels(), ThreeHomes();
    OrphansAfter(2, 3, ts, hs, 1, 0, Leaf(4, 1, 0), true);
    assert Beneath(hs[3], Sub(hs[1], 0)) by {
      assert hs[3].up == Sub(hs[1], 0);
    }
  }
}
