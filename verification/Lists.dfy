/** What the lists of the model have in common. */
module Lists {
  predicate Distinct<T(==)>(l: seq<T>) { forall a, b | 0 <= a < b < |l| :: l[a] != l[b] }

  /** The next and the previous position of a circular list with n elements. */
  function Up(n: nat, t: int): int { if t + 1 == n then 0 else t + 1 }

  function Down(n: nat, t: int): int { if t == 0 then n - 1 else t - 1 }

  function Dropped<T>(l: seq<T>, t: nat): seq<T>
    requires t < |l|
  {
    l[..t] + l[t + 1..]
  }

  lemma DroppedMembers<T>(l: seq<T>, t: nat)
    requires t < |l| && Distinct(l)
    ensures Distinct(Dropped(l, t)) && forall x :: x in Dropped(l, t) <==> x in l && x != l[t]
  {
    var d := Dropped(l, t);
    assert forall a | 0 <= a < |d| :: d[a] == l[if a < t then a else a + 1];
    forall x | x in l && x != l[t] ensures x in d {
      var a :| 0 <= a < |l| && l[a] == x;
      assert d[if a < t then a else a - 1] == x;
    }
  }
}
