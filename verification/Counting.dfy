/** Sizes of finite sets of numbers. */
module Counting {

  lemma {:induction false} SizeBelow(q: set<nat>, n: nat)
    requires forall x | x in q :: x < n
    ensures |q| <= n
  {
    if n > 0 {
      SizeBelow(q - {n - 1}, n - 1);
    } else {
      assert q == {};
    }
  }

  lemma SubsetSize(a: set<int>, b: set<int>)
    requires a <= b
    ensures |a| <= |b|
  {
    assert b == a + (b - a);
  }

  lemma OneMissing(a: set<int>, b: set<int>) returns (q: int)
    requires |b| < |a|
    ensures q in a && q !in b
  {
    if forall x | x in a :: x in b { SubsetSize(a, b); }
    q :| q in a && q !in b;
  }

  /** There is always another page number. */
  lemma {:induction false} UnusedPage(s: set<nat>) returns (p: nat)
    ensures forall x | x in s :: x < p
    decreases |s|
  {
    if s == {} {
      p := 0;
    } else {
      var x :| x in s;
      var q := UnusedPage(s - {x});
      p := if q > x then q else x + 1;
      forall y | y in s ensures y < p {
        if y != x { assert y in s - {x}; }
      }
    }
  }
}
