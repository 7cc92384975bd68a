/** The two Pd::clamp of src/pd.cpp: how a window to delegate is fitted to another window. */
module Clamping {
  import opened Bits
  import opened Shifts
  import opened Machine

  // ----- without a hot spot

  /** The common part of two windows, if there is one. */
  predicate Clamps(a: nat, oa: nat, b: nat, ob: nat) { SameBlock(a, oa, b, ob) }

  /** Clamping succeeds exactly when two aligned windows share an address, and gives the window they share. */
  lemma ClampIsIntersection(a: nat, oa: nat, b: nat, ob: nat, x: nat)
    requires Aligned(a, oa) && Aligned(b, ob)
    ensures Clamps(a, oa, b, ob) ==>
              (InRange(x, Or(b, a), Min(oa, ob)) <==> InRange(x, a, oa) && InRange(x, b, ob))
    ensures !Clamps(a, oa, b, ob) ==> !(InRange(x, a, oa) && InRange(x, b, ob))
  {
    SameBlockIsOverlap(a, oa, b, ob);
    if Clamps(a, oa, b, ob) {
      OrOfOverlap(a, oa, b, ob);
      OrComm(a, b);
    }
  }

  datatype Window = Window(base: nat, ord: nat)

  /** The window that Pd::del_crd goes on with for I/O ports, which does not look whether clamping has failed; then the
      order is `failed`, the greatest word. */
  function PortClamp(sb: nat, so: nat, rb: nat, ro: nat, failed: nat): Window {
    if Clamps(sb, so, rb, ro) then Window(Or(rb, sb), Min(so, ro)) else Window(rb, failed)
  }

  /** That window is aligned, as a delegation demands, exactly when clamping succeeds and both bases are aligned to the
      smaller order; after a failure, only at port 0. */
  lemma PortClampFits(sb: nat, so: nat, rb: nat, ro: nat, failed: nat)
    requires rb < WORD && failed == WORD - 1
    ensures var w := PortClamp(sb, so, rb, ro, failed);
            Aligned(w.base, w.ord) <==>
            if Clamps(sb, so, rb, ro) then Aligned(sb, w.ord) && Aligned(rb, w.ord) else rb == 0
  {
    if Clamps(sb, so, rb, ro) { OrAligned(rb, sb, Min(so, ro)); } else { OnlyZero(rb, failed); }
  }

  lemma OnlyZero(x: nat, k: nat)
    requires x <= k
    ensures Aligned(x, k) <==> x == 0
  {
    BelowPow2(k);
    SmallMod(x, Pow2(k));
  }

  lemma {:induction false} OrAligned(x: nat, y: nat, k: nat)
    ensures Aligned(Or(x, y), k) <==> Aligned(x, k) && Aligned(y, k)
  {
    if k > 0 {
      OrAligned(x / 2, y / 2, k - 1);
      OrHalves(x, y);
      AlignedHalves(x, k);
      AlignedHalves(y, k);
      AlignedHalves(Or(x, y), k);
    }
  }

  lemma OrHalves(x: nat, y: nat)
    ensures Or(x, y) / 2 == Or(x / 2, y / 2) && (Or(x, y) % 2 == 0 <==> x % 2 == 0 && y % 2 == 0)
  {
    OrUnfold(x, y);
  }

  lemma AlignedHalves(x: nat, k: nat)
    requires k > 0
    ensures Aligned(x, k) <==> x % 2 == 0 && Aligned(x / 2, k - 1)
  {
    if Aligned(x, k) { AlignedHalf(x, k); }
    if x % 2 == 0 && Aligned(x / 2, k - 1) {
      var q := x / 2 / Pow2(k - 1);
      DivBounds(x / 2, Pow2(k - 1));
      Regroup(q, 2, Pow2(k - 1));
      assert x == q * Pow2(k);
      AlignedMultiple(q, k);
    }
  }

  lemma {:induction false} BelowPow2(n: nat)
    ensures n < Pow2(n)
  {
    if n > 0 { BelowPow2(n - 1); }
  }

  // ----- with a hot spot

  datatype Fitted = Fitted(snd: nat, rcv: nat, ord: nat)

  /** `v & ~((1 << k) - 1)` */
  function AlignDown(v: nat, k: nat): nat { Join(Shr(v, k), k, 0) }

  /** `h & ((1 << hi) - 1) & ~((1 << lo) - 1)` */
  function Between(h: nat, lo: nat, hi: nat): nat { AlignDown(Low(h, hi), lo) }

  function HotClamp(snd: nat, rcv: nat, so: nat, ro: nat, h: nat): Fitted {
    if so < ro then Fitted(AlignDown(snd, so), Or(AlignDown(rcv, ro), Between(h, so, ro)), so)
    else Fitted(Or(AlignDown(snd, so), Between(h, ro, so)), AlignDown(rcv, ro), ro)
  }

  lemma AlignDownFacts(v: nat, k: nat)
    ensures Aligned(AlignDown(v, k), k) && AlignDown(v, k) <= v < AlignDown(v, k) + Pow2(k)
  {
    AlignedMultiple(Shr(v, k), k);
    OffsetDigits(v, k);
    JoinAdd(Shr(v, k), k, Low(v, k));
  }

  /** The part of a window of order hi at b that the hot spot selects. */
  lemma HotPart(b: nat, h: nat, lo: nat, hi: nat)
    requires Aligned(b, hi) && lo <= hi
    ensures var p := Or(b, Between(h, lo, hi));
            && Aligned(p, lo) && b <= p && p + Pow2(lo) <= b + Pow2(hi) && InRange(b + Low(h, hi), p, lo)
  {
    var x := Low(h, hi);
    var y := AlignDown(x, lo);
    AlignDownFacts(x, lo);
    OrBase(b, hi, y);
    AlignedFiner(b, lo, hi);
    AlignedAdd(b, y, lo);
    InWindow(b + x, b, hi);
    Nested(b + x, b + y, lo, b, hi);
  }

  lemma InWindow(x: nat, b: nat, k: nat)
    requires b <= x < b + Pow2(k)
    ensures InRange(x, b, k)
  {
  }

  /** The fitted windows have the smaller of the two orders, are aligned, lie in the windows that were given, and the
      one cut from the larger window holds its hot spot. */
  lemma HotClampFits(snd: nat, rcv: nat, so: nat, ro: nat, h: nat)
    ensures var f := HotClamp(snd, rcv, so, ro, h);
            && f.ord == Min(so, ro) && Aligned(f.snd, f.ord) && Aligned(f.rcv, f.ord)
            && AlignDown(snd, so) <= f.snd && f.snd + Pow2(f.ord) <= AlignDown(snd, so) + Pow2(so)
            && AlignDown(rcv, ro) <= f.rcv && f.rcv + Pow2(f.ord) <= AlignDown(rcv, ro) + Pow2(ro)
            && (so < ro ==> InRange(AlignDown(rcv, ro) + Low(h, ro), f.rcv, so))
            && (ro <= so ==> InRange(AlignDown(snd, so) + Low(h, so), f.snd, ro))
  {
    AlignDownFacts(snd, so);
    AlignDownFacts(rcv, ro);
    if so < ro {
      HotPart(AlignDown(rcv, ro), h, so, ro);
    } else {
      HotPart(AlignDown(snd, so), h, ro, so);
    }
  }
}
