/** Pd::delegate (src/pd.cpp:74-131): copying the mappings of an address window from one space to another. */
module Delegation {
  import opened Bits
  import opened Counting
  import opened Ranges
  import opened Derivation
  import opened MappingDb
  import opened Revocation

  /** What an address of a space is mapped to. */
  datatype Mapping = Unmapped | Mapped(frame: int, rights: Rights)

  function MapAt(db: Db, sp: nat, addr: nat): Mapping {
    match LookupIn(TreeOf(db, sp), addr, false)
    case None => Unmapped
    case Some(e) => Mapped(InfoOf(db, e.id).phys + addr - e.base, Attr(db, e.id))
  }

  /** The mapping a receiver is to get: the same frame, with the rights that are both there and asked for. */
  function Copied(m: Mapping, a: Rights): Mapping {
    if m.Mapped? && m.rights * a != {} then Mapped(m.frame, m.rights * a) else Unmapped
  }

  /** The new node for the part of m that lies in the window. */
  function ChildInfo(db: Db, m: Id, rcv: nat, sndBase: nat, rcvBase: nat, ord: nat): Info {
    var i := InfoOf(db, m);
    var b := Or(sndBase, i.base);
    if b >= i.base && b >= sndBase then
      Info(rcv, b - i.base + i.phys, b - sndBase + rcvBase, Min(i.order, ord), ChildDepth(i.dpth))
    else
      Info(rcv, 0, 0, 0, 0)
  }

  /** A range none of whose addresses is mapped is free. */
  lemma UnmappedIsFree(db: Db, th: Threads, sp: nat, e: Entry)
    requires Trees(db, th) && Wf(e)
    requires forall x :: Holds(e, x) ==> MapAt(db, sp, x) == Unmapped
    ensures Free(TreeOf(db, sp), e)
  {
    var t := TreeOf(db, sp);
    assert TreeOk(db, th, sp);
    forall i | 0 <= i < |t|
      ensures !Overlaps(t[i], e)
    {
      if Overlaps(t[i], e) {
        var x := Max(t[i].base, e.base);
        assert Holds(e, x) && Holds(t[i], x) && MapAt(db, sp, x) == Unmapped;
        LookupMeaning(t, x, false);
      }
    }
  }

  /** Mappings after a child has been added: the child's range is new, everything else is as before. */
  lemma MapAfterAdd(db: Db, th: Threads, p: Id, n: Id, info: Info, a: Rights, sp: nat, addr: nat)
    requires Sound(db, th) && Addable(db, th, p, n, info)
    ensures MapAt(AddChild(db, p, n, info, a), sp, addr) ==
      if sp == info.space && InRange(addr, info.base, info.order) then Mapped(info.phys + addr - info.base, a)
      else MapAt(db, sp, addr)
  {
    var db', e, t := AddChild(db, p, n, info, a), Entry(info.base, info.order, n), TreeOf(db, sp);
    assert TreeOk(db, th, sp);
    if sp == info.space { LookupInserted(t, e, addr); }
    var f := LookupIn(t, addr, false);
    if f.Some? {
      LookupMeaning(t, addr, false);
      assert f.e in t && Live(th, f.e.id);
      AddChildOthers(db, th, p, n, info, a, f.e.id);
    }
  }

  /** A target's mapping, address by address. */
  lemma MapOfTarget(db: Db, th: Threads, m: Id, addr: nat)
    requires Trees(db, th) && Live(th, m) && Holds(EntryOf(db, m), addr)
    ensures MapAt(db, InfoOf(db, m).space, addr) == Mapped(InfoOf(db, m).phys + addr - InfoOf(db, m).base, Attr(db, m))
  {
    var sp := InfoOf(db, m).space;
    var t := TreeOf(db, sp);
    assert TreeOk(db, th, sp) && InTree(db, m);
    LookupMeaning(t, addr, false);
    var i :| 0 <= i < |t| && t[i] == EntryOf(db, m);
    var f := LookupIn(t, addr, false);
    assert f.Some? && Live(th, f.e.id);
    if f.e.id != m { RangesDisjoint(db, th, m, f.e.id); }
  }

  // ----- the part of a node that lies in the window

  /** Node m overlaps the sender's window. */
  ghost predicate Sends(db: Db, th: Threads, snd: nat, sndBase: nat, ord: nat, m: Id) {
    Live(th, m) && InfoOf(db, m).space == snd && SameBlock(InfoOf(db, m).base, InfoOf(db, m).order, sndBase, ord)
  }

  /** The new range is exactly the part of the node inside the window, moved to the receiver's window. */
  lemma ChildRange(db: Db, th: Threads, m: Id, snd: nat, rcv: nat, sndBase: nat, rcvBase: nat, ord: nat)
    requires Trees(db, th) && Sends(db, th, snd, sndBase, ord, m) && Aligned(sndBase, ord) && Aligned(rcvBase, ord)
    ensures var i, c := InfoOf(db, m), ChildInfo(db, m, rcv, sndBase, rcvBase, ord);
            var b := Max(sndBase, i.base);
            && c == Info(rcv, b - i.base + i.phys, b - sndBase + rcvBase, Min(i.order, ord), ChildDepth(i.dpth))
            && i.base <= b && b + Pow2(c.order) <= i.base + Pow2(i.order)
            && sndBase <= b && b + Pow2(c.order) <= sndBase + Pow2(ord)
            && (b + Pow2(c.order) == i.base + Pow2(i.order) || b + Pow2(c.order) == sndBase + Pow2(ord))
            && Wf(EntryOf(db, m))
  {
    var i := InfoOf(db, m);
    var t := TreeOf(db, snd);
    assert InTree(db, m) && TreeOk(db, th, snd);
    var j :| 0 <= j < |t| && t[j] == EntryOf(db, m);
    SameBlockIsOverlap(i.base, i.order, sndBase, ord);
    OrOfOverlap(i.base, i.order, sndBase, ord);
    OrComm(sndBase, i.base);
  }

  lemma ChildAligned(db: Db, th: Threads, m: Id, snd: nat, rcv: nat, sndBase: nat, rcvBase: nat, ord: nat)
    requires Sound(db, th) && Sends(db, th, snd, sndBase, ord, m) && Aligned(sndBase, ord) && Aligned(rcvBase, ord)
    ensures var c := ChildInfo(db, m, rcv, sndBase, rcvBase, ord);
            Aligned(c.phys, c.order) && Aligned(c.base, c.order)
  {
    var i, o, b := InfoOf(db, m), Min(InfoOf(db, m).order, ord), Max(sndBase, InfoOf(db, m).base);
    ChildRange(db, th, m, snd, rcv, sndBase, rcvBase, ord);
    assert FramesOk(db, m);
    AlignedFiner(i.base, o, i.order);
    AlignedFiner(i.phys, o, i.order);
    AlignedFiner(sndBase, o, ord);
    AlignedFiner(rcvBase, o, ord);
    AlignedAdd(b, i.base, o);
    AlignedAdd(b - i.base, i.phys, o);
    AlignedAdd(b, sndBase, o);
    AlignedAdd(b - sndBase, rcvBase, o);
  }

  /** A sender that is not at the greatest depth can pass its part of the window on. */
  lemma ChildAddable(db: Db, th: Threads, m: Id, n: Id, snd: nat, rcv: nat, sndBase: nat, rcvBase: nat, ord: nat)
    requires Sound(db, th) && Sends(db, th, snd, sndBase, ord, m) && Aligned(sndBase, ord) && Aligned(rcvBase, ord)
    requires n !in th.home && n !in db.links.info && n !in db.links.prnt && InfoOf(db, m).dpth < 0xffff
    requires var c := ChildInfo(db, m, rcv, sndBase, rcvBase, ord); Free(TreeOf(db, rcv), Entry(c.base, c.order, n))
    ensures Addable(db, th, m, n, ChildInfo(db, m, rcv, sndBase, rcvBase, ord))
  {
    ChildFrames(db, th, m, snd, rcv, sndBase, rcvBase, ord);
    ChildAligned(db, th, m, snd, rcv, sndBase, rcvBase, ord);
    ParentLive(db, th, m);
  }

  lemma ChildFrames(db: Db, th: Threads, m: Id, snd: nat, rcv: nat, sndBase: nat, rcvBase: nat, ord: nat)
    requires Trees(db, th) && Sends(db, th, snd, sndBase, ord, m) && Aligned(sndBase, ord) && Aligned(rcvBase, ord)
    requires InfoOf(db, m).dpth < 0xffff
    ensures var i, c := InfoOf(db, m), ChildInfo(db, m, rcv, sndBase, rcvBase, ord);
            && c.space == rcv && c.dpth == i.dpth + 1
            && i.phys <= c.phys && c.phys + Pow2(c.order) <= i.phys + Pow2(i.order)
  {
    ChildRange(db, th, m, snd, rcv, sndBase, rcvBase, ord);
    ShallowDepth(InfoOf(db, m).dpth);
  }

  lemma ShallowDepth(d: nat)
    requires d < 0xffff
    ensures ChildDepth(d) == d + 1
  {
  }

  // ----- what the loop has achieved

  /** Below addr the window has been copied, from addr on the receiver's window is still empty. */
  ghost predicate CopiedUpTo(db0: Db, db: Db, snd: nat, rcv: nat, sndBase: nat, rcvBase: nat, ord: nat, a: Rights,
                             addr: nat) {
    forall x: nat :: InRange(x, rcvBase, ord) ==>
      MapAt(db, rcv, x) ==
        if x - rcvBase + sndBase < addr then Copied(MapAt(db0, snd, x - rcvBase + sndBase), a) else Unmapped
  }

  /** Outside the receiver's window nothing changes. */
  ghost predicate OthersSame(db0: Db, db: Db, rcv: nat, rcvBase: nat, ord: nat) {
    forall sp: nat, x: nat :: !(sp == rcv && InRange(x, rcvBase, ord)) ==> MapAt(db, sp, x) == MapAt(db0, sp, x)
  }

  /** Old nodes stay as they are; new ones lie in the receiver's window. */
  ghost predicate Extends(db0: Db, th0: Threads, db: Db, th: Threads, rcv: nat, rcvBase: nat, ord: nat) {
    && (forall n :: Live(th0, n) ==> Live(th, n) && InfoOf(db, n) == InfoOf(db0, n) && Attr(db, n) == Attr(db0, n))
    && (forall n :: Live(th, n) && !Live(th0, n) ==>
          InfoOf(db, n).space == rcv && rcvBase <= InfoOf(db, n).base && Top(EntryOf(db, n)) <= rcvBase + Pow2(ord))
  }

  ghost predicate SameParent(db0: Db, db: Db, n: Id) {
    && (n in db.links.prnt <==> n in db0.links.prnt)
    && (n in db.links.prnt ==> db.links.prnt[n] == db0.links.prnt[n])
  }

  /** Node n is derived from a node in the sender's window, with that node's part of it and the rights of both sides. */
  ghost predicate CopyOfTarget(db0: Db, th0: Threads, db: Db, snd: nat, rcv: nat, sndBase: nat, rcvBase: nat, ord: nat,
                               a: Rights, n: Id) {
    && n in db.links.prnt
    && var p := db.links.prnt[n];
       && Target(db0, th0, snd, sndBase, ord, p)
       && InfoOf(db, n) == ChildInfo(db0, p, rcv, sndBase, rcvBase, ord) && Attr(db, n) == Attr(db0, p) * a
  }

  /** Old nodes keep their parents; every new one is a child of the node it copies. */
  ghost predicate Derives(db0: Db, th0: Threads, db: Db, th: Threads, snd: nat, rcv: nat, sndBase: nat, rcvBase: nat,
                          ord: nat, a: Rights) {
    && (forall n :: Live(th0, n) ==> SameParent(db0, db, n))
    && (forall n :: Live(th, n) && !Live(th0, n) ==>
          CopyOfTarget(db0, th0, db, snd, rcv, sndBase, rcvBase, ord, a, n))
  }

  /** The receiver has room for what m is to pass on. */
  ghost predicate RoomFor(db: Db, rcv: nat, sndBase: nat, rcvBase: nat, ord: nat, m: Id) {
    var c := ChildInfo(db, m, rcv, sndBase, rcvBase, ord);
    Free(TreeOf(db, rcv), Entry(c.base, c.order, m))
  }

  /** m has got a new child. */
  ghost predicate HasCopy(th0: Threads, db: Db, th: Threads, m: Id) {
    exists n :: Live(th, n) && !Live(th0, n) && n in db.links.prnt && db.links.prnt[n] == m
  }

  /** m ends by addr, has a right to give and finds room in the receiver. */
  ghost predicate Copyable(db: Db, th: Threads, snd: nat, rcv: nat, sndBase: nat, rcvBase: nat, ord: nat, a: Rights,
                           addr: nat, m: Id) {
    && Target(db, th, snd, sndBase, ord, m) && Top(EntryOf(db, m)) <= addr
    && Attr(db, m) * a != {} && RoomFor(db, rcv, sndBase, rcvBase, ord, m)
  }

  /** Every such node has been copied. */
  ghost predicate CopiesMade(db0: Db, th0: Threads, db: Db, th: Threads, snd: nat, rcv: nat, sndBase: nat, rcvBase: nat,
                             ord: nat, a: Rights, addr: nat) {
    forall m :: Copyable(db0, th0, snd, rcv, sndBase, rcvBase, ord, a, addr, m) ==> HasCopy(th0, db, th, m)
  }

  /** All that the loop keeps. */
  ghost predicate Copying(db0: Db, th0: Threads, db: Db, th: Threads, snd: nat, rcv: nat, sndBase: nat, rcvBase: nat,
                          ord: nat, a: Rights, addr: nat, nextId: Id) {
    && Inv(db, th) && Unused(db, th, nextId) && OthersSame(db0, db, rcv, rcvBase, ord)
    && Extends(db0, th0, db, th, rcv, rcvBase, ord)
    && (snd == rcv && sndBase == rcvBase ==> th == th0)
    && (EmptyWindow(db0, rcv, rcvBase, ord) ==> CopiedUpTo(db0, db, snd, rcv, sndBase, rcvBase, ord, a, addr))
  }

  /** The nodes that send are old nodes. */
  lemma SenderIsOld(db0: Db, th0: Threads, db: Db, th: Threads, snd: nat, rcv: nat, sndBase: nat, rcvBase: nat,
                    ord: nat, m: Id)
    requires Extends(db0, th0, db, th, rcv, rcvBase, ord) && (snd == rcv && sndBase == rcvBase ==> th == th0)
    requires Trees(db, th) && Sends(db, th, snd, sndBase, ord, m) && Aligned(sndBase, ord) && Aligned(rcvBase, ord)
    ensures Live(th0, m) && Sends(db0, th0, snd, sndBase, ord, m)
  {
    if !Live(th0, m) {
      var i := InfoOf(db, m);
      ChildRange(db, th, m, snd, rcv, sndBase, rcvBase, ord);
      var b := Max(sndBase, i.base);
      Nested(b, sndBase, ord, rcvBase, ord);
      Nested(b, rcvBase, ord, sndBase, ord);
    }
  }

  /** Between the last address looked at and the node found nothing is mapped. */
  lemma GapUnmapped(db: Db, th: Threads, snd: nat, sndBase: nat, addr: nat, m: Id, x: nat)
    requires Trees(db, th) && LookupIn(TreeOf(db, snd), addr, true).Some?
             && m == LookupIn(TreeOf(db, snd), addr, true).e.id
    requires addr <= x < Max(sndBase, InfoOf(db, m).base) && sndBase <= x
    ensures MapAt(db, snd, x) == Unmapped
  {
    var t := TreeOf(db, snd);
    assert TreeOk(db, th, snd);
    LookupMeaning(t, x, false);
    var f := LookupIn(t, x, false);
    if f.Some? {
      assert f.e in t && Live(th, f.e.id) && f.e == EntryOf(db, f.e.id);
      Nearest(db, th, db, th, snd, addr, f.e.id);
    }
  }

  /** The sender's side of the window still is what it was. */
  lemma SenderSame(db0: Db, db: Db, snd: nat, rcv: nat, sndBase: nat, rcvBase: nat, ord: nat, x: nat)
    requires OthersSame(db0, db, rcv, rcvBase, ord) && InRange(x, sndBase, ord)
    requires Aligned(sndBase, ord) && Aligned(rcvBase, ord) && !(snd == rcv && sndBase == rcvBase)
    ensures MapAt(db, snd, x) == MapAt(db0, snd, x)
  {
    if snd == rcv && InRange(x, rcvBase, ord) {
      Nested(x, sndBase, ord, rcvBase, ord);
      Nested(x, rcvBase, ord, sndBase, ord);
    }
  }

  ghost predicate EmptyWindow(db: Db, rcv: nat, rcvBase: nat, ord: nat) {
    forall x: nat :: InRange(x, rcvBase, ord) ==> MapAt(db, rcv, x) == Unmapped
  }

  /** A space whose window is empty has nothing to send from that window. */
  lemma WindowsApart(db: Db, th: Threads, snd: nat, rcv: nat, sndBase: nat, rcvBase: nat, ord: nat, m: Id)
    requires Trees(db, th) && Sends(db, th, snd, sndBase, ord, m) && Aligned(sndBase, ord) && Aligned(rcvBase, ord)
    requires EmptyWindow(db, rcv, rcvBase, ord)
    ensures !(snd == rcv && sndBase == rcvBase)
  {
    ChildRange(db, th, m, snd, rcv, sndBase, rcvBase, ord);
    MapOfTarget(db, th, m, Max(sndBase, InfoOf(db, m).base));
  }

  /** The situation in which the loop handles node m: it is the first one at or behind addr. */
  ghost predicate Facing(db: Db, th: Threads, snd: nat, sndBase: nat, ord: nat, addr: nat, m: Id) {
    && Sends(db, th, snd, sndBase, ord, m) && addr < Top(EntryOf(db, m)) && addr <= Max(sndBase, InfoOf(db, m).base)
    && LookupIn(TreeOf(db, snd), addr, true).Some? && m == LookupIn(TreeOf(db, snd), addr, true).e.id
  }

  /** The receiver's range for m is free. */
  lemma ReceiverFree(db0: Db, db: Db, th: Threads, snd: nat, rcv: nat, sndBase: nat, rcvBase: nat, ord: nat, a: Rights,
                     addr: nat, m: Id, n: Id)
    requires Sound(db, th) && Facing(db, th, snd, sndBase, ord, addr, m) && Aligned(sndBase, ord)
             && Aligned(rcvBase, ord)
    requires CopiedUpTo(db0, db, snd, rcv, sndBase, rcvBase, ord, a, addr)
    ensures var c := ChildInfo(db, m, rcv, sndBase, rcvBase, ord); Free(TreeOf(db, rcv), Entry(c.base, c.order, n))
  {
    var c := ChildInfo(db, m, rcv, sndBase, rcvBase, ord);
    ChildRange(db, th, m, snd, rcv, sndBase, rcvBase, ord);
    ChildAligned(db, th, m, snd, rcv, sndBase, rcvBase, ord);
    forall x | Holds(Entry(c.base, c.order, n), x)
      ensures MapAt(db, rcv, x) == Unmapped
    { assert InRange(x, rcvBase, ord); }
    UnmappedIsFree(db, th, rcv, Entry(c.base, c.order, n));
  }

  /** Outside the part of m nothing has to be done for the receiver's window to be right up to the end of m. */
  lemma OutsidePart(db0: Db, db: Db, th: Threads, snd: nat, rcv: nat, sndBase: nat, rcvBase: nat, ord: nat, a: Rights,
                    addr: nat, m: Id, x: nat)
    requires Inv(db, th) && Facing(db, th, snd, sndBase, ord, addr, m) && Aligned(sndBase, ord) && Aligned(rcvBase, ord)
    requires CopiedUpTo(db0, db, snd, rcv, sndBase, rcvBase, ord, a, addr) && OthersSame(db0, db, rcv, rcvBase, ord)
    requires !(snd == rcv && sndBase == rcvBase) && InRange(x, rcvBase, ord)
    requires var c := ChildInfo(db, m, rcv, sndBase, rcvBase, ord); !InRange(x, c.base, c.order)
    ensures var y := x - rcvBase + sndBase;
            MapAt(db, rcv, x) == if y < Top(EntryOf(db, m)) then Copied(MapAt(db0, snd, y), a) else Unmapped
  {
    var y, b := x - rcvBase + sndBase, Max(sndBase, InfoOf(db, m).base);
    ChildRange(db, th, m, snd, rcv, sndBase, rcvBase, ord);
    if addr <= y < b {
      SenderSame(db0, db, snd, rcv, sndBase, rcvBase, ord, y);
      GapUnmapped(db, th, snd, sndBase, addr, m, y);
    }
  }

  /** Inside it the new node gives what is asked for. */
  lemma InsidePart(db0: Db, db: Db, th: Threads, snd: nat, rcv: nat, sndBase: nat, rcvBase: nat, ord: nat, a: Rights,
                   addr: nat, m: Id, x: nat)
    requires Inv(db, th) && Facing(db, th, snd, sndBase, ord, addr, m) && Aligned(sndBase, ord) && Aligned(rcvBase, ord)
    requires CopiedUpTo(db0, db, snd, rcv, sndBase, rcvBase, ord, a, addr) && OthersSame(db0, db, rcv, rcvBase, ord)
    requires !(snd == rcv && sndBase == rcvBase) && InRange(x, rcvBase, ord)
    requires var c := ChildInfo(db, m, rcv, sndBase, rcvBase, ord); InRange(x, c.base, c.order)
    ensures var c, r, y := ChildInfo(db, m, rcv, sndBase, rcvBase, ord), Attr(db, m) * a, x - rcvBase + sndBase;
            && y < Top(EntryOf(db, m)) && MapAt(db, rcv, x) == Unmapped
            && Copied(MapAt(db0, snd, y), a) == if r == {} then Unmapped else Mapped(c.phys + x - c.base, r)
  {
    var y := x - rcvBase + sndBase;
    ChildRange(db, th, m, snd, rcv, sndBase, rcvBase, ord);
    SenderSame(db0, db, snd, rcv, sndBase, rcvBase, ord, y);
    MapOfTarget(db, th, m, y);
  }

  /** One node copied: the mappings of the receiver's window up to the end of that node. */
  lemma CopyStep(db0: Db, db: Db, th: Threads, snd: nat, rcv: nat, sndBase: nat, rcvBase: nat, ord: nat, a: Rights,
                 addr: nat, m: Id, n: Id, x: nat)
    requires Inv(db, th) && Facing(db, th, snd, sndBase, ord, addr, m) && Aligned(sndBase, ord) && Aligned(rcvBase, ord)
    requires CopiedUpTo(db0, db, snd, rcv, sndBase, rcvBase, ord, a, addr) && OthersSame(db0, db, rcv, rcvBase, ord)
    requires !(snd == rcv && sndBase == rcvBase) && InRange(x, rcvBase, ord)
    requires Addable(db, th, m, n, ChildInfo(db, m, rcv, sndBase, rcvBase, ord))
    ensures var c, r := ChildInfo(db, m, rcv, sndBase, rcvBase, ord), Attr(db, m) * a;
            var db', y := if r == {} then db else AddChild(db, m, n, c, r), x - rcvBase + sndBase;
            MapAt(db', rcv, x) == if y < Top(EntryOf(db, m)) then Copied(MapAt(db0, snd, y), a) else Unmapped
  {
    var c := ChildInfo(db, m, rcv, sndBase, rcvBase, ord);
    MapAfterAdd(db, th, m, n, c, Attr(db, m) * a, rcv, x);
    if InRange(x, c.base, c.order) {
      InsidePart(db0, db, th, snd, rcv, sndBase, rcvBase, ord, a, addr, m, x);
    } else {
      OutsidePart(db0, db, th, snd, rcv, sndBase, rcvBase, ord, a, addr, m, x);
    }
  }

  /** An added child keeps old nodes as they are and lies in the receiver's window. */
  lemma AddExtends(db0: Db, th0: Threads, db: Db, th: Threads, snd: nat, rcv: nat, sndBase: nat, rcvBase: nat, ord: nat,
                   m: Id, n: Id, a: Rights, r: Id, k: nat)
    requires Extends(db0, th0, db, th, rcv, rcvBase, ord) && OthersSame(db0, db, rcv, rcvBase, ord) && Sound(db, th)
    requires Sends(db, th, snd, sndBase, ord, m) && Aligned(sndBase, ord) && Aligned(rcvBase, ord)
    requires Addable(db, th, m, n, ChildInfo(db, m, rcv, sndBase, rcvBase, ord)) && r in th.lists && k < |th.lists[r]|
    ensures var db' := AddChild(db, m, n, ChildInfo(db, m, rcv, sndBase, rcvBase, ord), a);
            var th' := AddToThreads(th, r, k, n);
            Extends(db0, th0, db', th', rcv, rcvBase, ord) && OthersSame(db0, db', rcv, rcvBase, ord)
  {
    var c := ChildInfo(db, m, rcv, sndBase, rcvBase, ord);
    var db', th' := AddChild(db, m, n, c, a), AddToThreads(th, r, k, n);
    ChildRange(db, th, m, snd, rcv, sndBase, rcvBase, ord);
    forall x | Live(th, x)
      ensures Live(th', x) && InfoOf(db', x) == InfoOf(db, x) && Attr(db', x) == Attr(db, x)
    { AddChildOthers(db, th, m, n, c, a, x); }
    forall sp: nat, x: nat | !(sp == rcv && InRange(x, rcvBase, ord))
      ensures MapAt(db', sp, x) == MapAt(db0, sp, x)
    {
      MapAfterAdd(db, th, m, n, c, a, sp, x);
      assert MapAt(db, sp, x) == MapAt(db0, sp, x);
    }
  }

  lemma AddStep(db0: Db, th0: Threads, db: Db, th: Threads, snd: nat, rcv: nat, sndBase: nat, rcvBase: nat, ord: nat,
                a: Rights, addr: nat, nextId: Id, m: Id, r: Id, k: nat)
    requires Inv(db0, th0) && Copying(db0, th0, db, th, snd, rcv, sndBase, rcvBase, ord, a, addr, nextId)
    requires Facing(db, th, snd, sndBase, ord, addr, m) && Aligned(sndBase, ord) && Aligned(rcvBase, ord)
    requires Addable(db, th, m, nextId, ChildInfo(db, m, rcv, sndBase, rcvBase, ord)) && Attr(db, m) * a != {}
    requires r in th.lists && k < |th.lists[r]| && th.lists[r][k] == m
    ensures var db' := AddChild(db, m, nextId, ChildInfo(db, m, rcv, sndBase, rcvBase, ord), Attr(db, m) * a);
            Copying(db0, th0, db', AddToThreads(th, r, k, nextId), snd, rcv, sndBase, rcvBase, ord, a,
                    Top(EntryOf(db, m)), nextId + 1)
  {
    var c, ra := ChildInfo(db, m, rcv, sndBase, rcvBase, ord), Attr(db, m) * a;
    var db', th' := AddChild(db, m, nextId, c, ra), AddToThreads(th, r, k, nextId);
    AddChildInv(db, th, m, nextId, c, ra, r, k);
    AddExtends(db0, th0, db, th, snd, rcv, sndBase, rcvBase, ord, m, nextId, ra, r, k);
    NotIntoItself(db, th, snd, rcv, sndBase, rcvBase, ord, m, nextId);
    if EmptyWindow(db0, rcv, rcvBase, ord) {
      AddCopies(db0, th0, db, th, snd, rcv, sndBase, rcvBase, ord, a, addr, nextId, m);
    }
    AddUnused(db, th, m, nextId, c, ra, r, k);
  }

  lemma AddDerives(db0: Db, th0: Threads, db: Db, th: Threads, snd: nat, rcv: nat, sndBase: nat, rcvBase: nat, ord: nat,
                   a: Rights, m: Id, n: Id, r: Id, k: nat)
    requires Derives(db0, th0, db, th, snd, rcv, sndBase, rcvBase, ord, a)
    requires Extends(db0, th0, db, th, rcv, rcvBase, ord) && Threaded(db, th)
    requires Target(db0, th0, snd, sndBase, ord, m) && r in th.lists && k < |th.lists[r]|
    requires Addable(db, th, m, n, ChildInfo(db, m, rcv, sndBase, rcvBase, ord))
    ensures var db' := AddChild(db, m, n, ChildInfo(db, m, rcv, sndBase, rcvBase, ord), Attr(db, m) * a);
            Derives(db0, th0, db', AddToThreads(th, r, k, n), snd, rcv, sndBase, rcvBase, ord, a)
  {
    var c, ra := ChildInfo(db, m, rcv, sndBase, rcvBase, ord), Attr(db, m) * a;
    var db', th' := AddChild(db, m, n, c, ra), AddToThreads(th, r, k, n);
    assert Live(th0, m);
    forall x | Live(th0, x)
      ensures SameParent(db0, db', x)
    { assert Live(th, x) && SameParent(db0, db, x); }
    forall x | Live(th', x) && !Live(th0, x)
      ensures CopyOfTarget(db0, th0, db', snd, rcv, sndBase, rcvBase, ord, a, x)
    {
      if x != n {
        assert Live(th, x) && CopyOfTarget(db0, th0, db, snd, rcv, sndBase, rcvBase, ord, a, x);
        AddChildOthers(db, th, m, n, c, ra, x);
      }
    }
  }

  lemma AddUnused(db: Db, th: Threads, m: Id, n: Id, c: Info, ra: Rights, r: Id, k: nat)
    requires Unused(db, th, n) && r in th.lists && k < |th.lists[r]|
    ensures Unused(AddChild(db, m, n, c, ra), AddToThreads(th, r, k, n), n + 1)
  {
  }

  lemma AddCopies(db0: Db, th0: Threads, db: Db, th: Threads, snd: nat, rcv: nat, sndBase: nat, rcvBase: nat, ord: nat,
                  a: Rights, addr: nat, nextId: Id, m: Id)
    requires Inv(db0, th0) && Copying(db0, th0, db, th, snd, rcv, sndBase, rcvBase, ord, a, addr, nextId)
    requires Facing(db, th, snd, sndBase, ord, addr, m) && Aligned(sndBase, ord) && Aligned(rcvBase, ord)
    requires Addable(db, th, m, nextId, ChildInfo(db, m, rcv, sndBase, rcvBase, ord)) && Attr(db, m) * a != {}
    requires EmptyWindow(db0, rcv, rcvBase, ord)
    ensures var db' := AddChild(db, m, nextId, ChildInfo(db, m, rcv, sndBase, rcvBase, ord), Attr(db, m) * a);
            CopiedUpTo(db0, db', snd, rcv, sndBase, rcvBase, ord, a, Top(EntryOf(db, m)))
  {
    var db' := AddChild(db, m, nextId, ChildInfo(db, m, rcv, sndBase, rcvBase, ord), Attr(db, m) * a);
    SenderIsOld(db0, th0, db, th, snd, rcv, sndBase, rcvBase, ord, m);
    NotIntoItself(db, th, snd, rcv, sndBase, rcvBase, ord, m, nextId);
    forall x: nat | InRange(x, rcvBase, ord)
      ensures MapAt(db', rcv, x) == if x - rcvBase + sndBase < Top(EntryOf(db, m))
                                    then Copied(MapAt(db0, snd, x - rcvBase + sndBase), a) else Unmapped
    { CopyStep(db0, db, th, snd, rcv, sndBase, rcvBase, ord, a, addr, m, nextId, x); }
  }

  /** A node cannot be copied over itself. */
  lemma NotIntoItself(db: Db, th: Threads, snd: nat, rcv: nat, sndBase: nat, rcvBase: nat, ord: nat, m: Id, n: Id)
    requires Trees(db, th) && Sends(db, th, snd, sndBase, ord, m) && Aligned(sndBase, ord) && Aligned(rcvBase, ord)
    requires var c := ChildInfo(db, m, rcv, sndBase, rcvBase, ord); Free(TreeOf(db, rcv), Entry(c.base, c.order, n))
    ensures !(snd == rcv && sndBase == rcvBase)
  {
    ChildRange(db, th, m, snd, rcv, sndBase, rcvBase, ord);
    var t := TreeOf(db, snd);
    assert InTree(db, m);
    var i :| 0 <= i < |t| && t[i] == EntryOf(db, m);
    var c := ChildInfo(db, m, rcv, sndBase, rcvBase, ord);
    if snd == rcv { assert !Overlaps(t[i], Entry(c.base, c.order, n)); }
  }

  /** A node that has nothing to give, or whose place is taken, is passed over. */
  lemma SkipStep(db0: Db, th0: Threads, db: Db, th: Threads, snd: nat, rcv: nat, sndBase: nat, rcvBase: nat, ord: nat,
                 a: Rights, addr: nat, nextId: Id, m: Id)
    requires Inv(db0, th0) && Copying(db0, th0, db, th, snd, rcv, sndBase, rcvBase, ord, a, addr, nextId)
    requires Facing(db, th, snd, sndBase, ord, addr, m) && Aligned(sndBase, ord) && Aligned(rcvBase, ord)
    requires InfoOf(db, m).dpth < 0xffff
    requires var c := ChildInfo(db, m, rcv, sndBase, rcvBase, ord);
             !Free(TreeOf(db, rcv), Entry(c.base, c.order, nextId)) || Attr(db, m) * a == {}
    ensures Copying(db0, th0, db, th, snd, rcv, sndBase, rcvBase, ord, a, Top(EntryOf(db, m)), nextId + 1)
  {
    if EmptyWindow(db0, rcv, rcvBase, ord) {
      SenderIsOld(db0, th0, db, th, snd, rcv, sndBase, rcvBase, ord, m);
      WindowsApart(db0, th0, snd, rcv, sndBase, rcvBase, ord, m);
      ReceiverFree(db0, db, th, snd, rcv, sndBase, rcvBase, ord, a, addr, m, nextId);
      ChildAddable(db, th, m, nextId, snd, rcv, sndBase, rcvBase, ord);
      forall x: nat | InRange(x, rcvBase, ord)
        ensures MapAt(db, rcv, x) == if x - rcvBase + sndBase < Top(EntryOf(db, m))
                                     then Copied(MapAt(db0, snd, x - rcvBase + sndBase), a) else Unmapped
      { CopyStep(db0, db, th, snd, rcv, sndBase, rcvBase, ord, a, addr, m, nextId, x); }
    }
  }

  /** The end of the walk: nothing behind addr is mapped in the sender's window. */
  lemma WalkEnd(db0: Db, th0: Threads, db: Db, th: Threads, snd: nat, rcv: nat, sndBase: nat, rcvBase: nat, ord: nat,
                a: Rights, addr: nat, nextId: Id, y: nat)
    requires Inv(db0, th0) && Copying(db0, th0, db, th, snd, rcv, sndBase, rcvBase, ord, a, addr, nextId)
    requires Aligned(sndBase, ord) && Aligned(rcvBase, ord) && EmptyWindow(db0, rcv, rcvBase, ord) && sndBase <= addr
    requires WalkOver(db, snd, sndBase, ord, addr)
    requires InRange(y, sndBase, ord) && addr <= y
    ensures MapAt(db0, snd, y) == Unmapped
  {
    if snd == rcv && sndBase == rcvBase {
      assert MapAt(db0, rcv, y) == Unmapped;
    } else {
      SenderSame(db0, db, snd, rcv, sndBase, rcvBase, ord, y);
      var t := TreeOf(db, snd);
      assert TreeOk(db, th, snd);
      LookupMeaning(t, y, false);
      var g := LookupIn(t, y, false);
      if g.Some? {
        assert g.e in t && Live(th, g.e.id) && g.e == EntryOf(db, g.e.id);
        Nearest(db, th, db, th, snd, addr, g.e.id);
        var f := LookupIn(t, addr, true);
        if f.Some? {
          LookupIsLive(db, db, th, snd, addr);
          SameBlockIsOverlap(f.e.base, f.e.order, sndBase, ord);
        }
      }
    }
  }

  /** What a successful lookup and clamp say about the node found. */
  lemma FacingNext(db0: Db, th0: Threads, db: Db, th: Threads, snd: nat, rcv: nat, sndBase: nat, rcvBase: nat, ord: nat,
                   a: Rights, addr: nat, nextId: Id)
    requires Inv(db0, th0) && Copying(db0, th0, db, th, snd, rcv, sndBase, rcvBase, ord, a, addr, nextId)
    requires Aligned(sndBase, ord) && Aligned(rcvBase, ord) && sndBase <= addr
    requires BetweenTargets(db0, th0, snd, sndBase, ord, addr)
    requires LookupIn(TreeOf(db, snd), addr, true).Some?
    requires var i := InfoOf(db, LookupIn(TreeOf(db, snd), addr, true).e.id); SameBlock(i.base, i.order, sndBase, ord)
    ensures var m := LookupIn(TreeOf(db, snd), addr, true).e.id;
            && Facing(db, th, snd, sndBase, ord, addr, m) && addr < sndBase + Pow2(ord)
            && Target(db0, th0, snd, sndBase, ord, m) && EntryOf(db, m) == EntryOf(db0, m)
            && InfoOf(db, m) == InfoOf(db0, m)
  {
    LookupIsLive(db, db, th, snd, addr);
    var m := LookupIn(TreeOf(db, snd), addr, true).e.id;
    Nearest(db, th, db, th, snd, addr, m);
    SenderIsOld(db0, th0, db, th, snd, rcv, sndBase, rcvBase, ord, m);
    SameBlockIsOverlap(InfoOf(db, m).base, InfoOf(db, m).order, sndBase, ord);
    assert Target(db0, th0, snd, sndBase, ord, m);
  }

  /** No node in the window is at the greatest depth a node can have. */
  ghost predicate Shallow(db: Db, th: Threads, snd: nat, sndBase: nat, ord: nat) {
    forall m :: Target(db, th, snd, sndBase, ord, m) ==> InfoOf(db, m).dpth < 0xffff
  }

  /** Every address of the receiver's window maps as the corresponding address of the sender's window did, with the
      rights both sides allow. */
  ghost predicate CopiedAll(db0: Db, db: Db, snd: nat, rcv: nat, sndBase: nat, rcvBase: nat, ord: nat, a: Rights) {
    forall x: nat :: InRange(x, rcvBase, ord) ==>
      MapAt(db, rcv, x) == Copied(MapAt(db0, snd, x - rcvBase + sndBase), a)
  }

  // ----- how far the quota gets

  /** The nodes of the sender that overlap the window. */
  ghost function Targets(db: Db, th: Threads, snd: nat, sndBase: nat, ord: nat): set<Id> {
    set m | m in th.home && Target(db, th, snd, sndBase, ord, m)
  }

  /** Those that end at or before addr. */
  ghost function Behind(db: Db, th: Threads, snd: nat, sndBase: nat, ord: nat, addr: nat): set<Id> {
    set m | m in th.home && Target(db, th, snd, sndBase, ord, m) && Top(EntryOf(db, m)) <= addr
  }

  lemma BehindStart(db: Db, th: Threads, snd: nat, sndBase: nat, ord: nat)
    ensures Behind(db, th, snd, sndBase, ord, sndBase) == {}
  {
  }

  /** How an old node of the sender stands to the next node found. */
  lemma OldNode(db0: Db, th0: Threads, db: Db, th: Threads, snd: nat, rcv: nat, sndBase: nat, rcvBase: nat, ord: nat,
                addr: nat, x: Id)
    requires Inv(db, th) && Extends(db0, th0, db, th, rcv, rcvBase, ord) && Target(db0, th0, snd, sndBase, ord, x)
    ensures var f := LookupIn(TreeOf(db, snd), addr, true);
            && (f.None? ==> Top(EntryOf(db0, x)) <= addr)
            && (f.Some? ==> f.e == EntryOf(db, f.e.id) && addr < Top(f.e))
            && (f.Some? && x != f.e.id ==> Top(EntryOf(db0, x)) <= addr || Top(f.e) <= EntryOf(db0, x).base)
  {
    assert Live(th, x) && InfoOf(db, x) == InfoOf(db0, x);
    Nearest(db, th, db, th, snd, addr, x);
  }

  /** Handling the next node puts exactly that node behind. */
  lemma BehindNext(db0: Db, th0: Threads, db: Db, th: Threads, snd: nat, rcv: nat, sndBase: nat, rcvBase: nat, ord: nat,
                   addr: nat, m: Id)
    requires Inv(db, th) && Extends(db0, th0, db, th, rcv, rcvBase, ord) && Target(db0, th0, snd, sndBase, ord, m)
    requires LookupIn(TreeOf(db, snd), addr, true).Some? && m == LookupIn(TreeOf(db, snd), addr, true).e.id
    ensures m !in Behind(db0, th0, snd, sndBase, ord, addr) && m in Targets(db0, th0, snd, sndBase, ord)
    ensures Behind(db0, th0, snd, sndBase, ord, Top(EntryOf(db0, m))) == Behind(db0, th0, snd, sndBase, ord, addr) + {m}
  {
    OldNode(db0, th0, db, th, snd, rcv, sndBase, rcvBase, ord, addr, m);
    assert EntryOf(db, m) == EntryOf(db0, m) by { assert Live(th0, m); }
    forall x | Target(db0, th0, snd, sndBase, ord, x)
      ensures Top(EntryOf(db0, x)) <= Top(EntryOf(db0, m)) <==> Top(EntryOf(db0, x)) <= addr || x == m
    {
      OldNode(db0, th0, db, th, snd, rcv, sndBase, rcvBase, ord, addr, x);
    }
  }

  /** When no further node is found, all are behind. */
  lemma BehindEnd(db0: Db, th0: Threads, db: Db, th: Threads, snd: nat, rcv: nat, sndBase: nat, rcvBase: nat, ord: nat,
                  addr: nat)
    requires Inv(db, th) && Extends(db0, th0, db, th, rcv, rcvBase, ord) && Aligned(sndBase, ord) && sndBase <= addr
    requires WalkOver(db, snd, sndBase, ord, addr)
    ensures Behind(db0, th0, snd, sndBase, ord, addr) == Targets(db0, th0, snd, sndBase, ord)
  {
    var t := TreeOf(db, snd);
    var f := LookupIn(t, addr, true);
    assert TreeOk(db, th, snd);
    LookupMeaning(t, addr, true);
    if f.Some? { SameBlockIsOverlap(f.e.base, f.e.order, sndBase, ord); }
    forall x | Target(db0, th0, snd, sndBase, ord, x)
      ensures Top(EntryOf(db0, x)) <= addr
    {
      OldNode(db0, th0, db, th, snd, rcv, sndBase, rcvBase, ord, addr, x);
      assert Live(th0, x);
    }
  }

  /** The node found has not been counted yet. */
  lemma MoreTargets(db0: Db, th0: Threads, db: Db, th: Threads, snd: nat, rcv: nat, sndBase: nat, rcvBase: nat,
                    ord: nat, a: Rights, addr: nat, nextId: Id)
    requires Inv(db0, th0) && Copying(db0, th0, db, th, snd, rcv, sndBase, rcvBase, ord, a, addr, nextId)
    requires Aligned(sndBase, ord) && Aligned(rcvBase, ord) && sndBase <= addr
    requires BetweenTargets(db0, th0, snd, sndBase, ord, addr)
    requires LookupIn(TreeOf(db, snd), addr, true).Some?
    requires var i := InfoOf(db, LookupIn(TreeOf(db, snd), addr, true).e.id); SameBlock(i.base, i.order, sndBase, ord)
    ensures |Behind(db0, th0, snd, sndBase, ord, addr)| < |Targets(db0, th0, snd, sndBase, ord)|
    ensures var m := LookupIn(TreeOf(db, snd), addr, true).e.id;
            |Behind(db0, th0, snd, sndBase, ord, Top(EntryOf(db0, m)))| ==
            |Behind(db0, th0, snd, sndBase, ord, addr)| + 1
  {
    var m := LookupIn(TreeOf(db, snd), addr, true).e.id;
    FacingNext(db0, th0, db, th, snd, rcv, sndBase, rcvBase, ord, a, addr, nextId);
    BehindNext(db0, th0, db, th, snd, rcv, sndBase, rcvBase, ord, addr, m);
    SubsetSize(Behind(db0, th0, snd, sndBase, ord, addr), Targets(db0, th0, snd, sndBase, ord) - {m});
  }

  /** Pd::delegate; the test of the receiver's quota passes in the first `budget` turns of the loop. It runs out exactly
      when there are more nodes in the window; then the window has been copied up to `stop`, behind the first `budget`
      nodes. */
  method Delegate(d: Database, snd: nat, rcv: nat, sndBase: nat, rcvBase: nat, ord: nat, a: Rights, budget: nat)
    returns (oom: bool, ghost stop: nat)
    requires d.Valid() && Aligned(sndBase, ord) && Aligned(rcvBase, ord)
    requires Shallow(d.db, d.th, snd, sndBase, ord)
    modifies d
    ensures d.Valid()
    ensures OthersSame(old(d.db), d.db, rcv, rcvBase, ord)
    ensures Extends(old(d.db), old(d.th), d.db, d.th, rcv, rcvBase, ord)
    ensures Derives(old(d.db), old(d.th), d.db, d.th, snd, rcv, sndBase, rcvBase, ord, a)
    ensures CopiesMade(old(d.db), old(d.th), d.db, d.th, snd, rcv, sndBase, rcvBase, ord, a, stop)
    ensures !oom && EmptyWindow(old(d.db), rcv, rcvBase, ord) ==>
      CopiedAll(old(d.db), d.db, snd, rcv, sndBase, rcvBase, ord, a)
    ensures oom <==> budget < |Targets(old(d.db), old(d.th), snd, sndBase, ord)|
    ensures EmptyWindow(old(d.db), rcv, rcvBase, ord) ==>
      CopiedUpTo(old(d.db), d.db, snd, rcv, sndBase, rcvBase, ord, a, stop)
    ensures |Behind(old(d.db), old(d.th), snd, sndBase, ord, stop)| ==
            if oom then budget else |Targets(old(d.db), old(d.th), snd, sndBase, ord)|
  {
    ghost var db0, th0 := d.db, d.th;
    oom, stop := CopyLoop(d, snd, rcv, sndBase, rcvBase, ord, a, budget);
    if !oom { CopyEnd(db0, th0, d.db, d.th, snd, rcv, sndBase, rcvBase, ord, a, stop, d.nextId); }
  }

  /** The loop of Pd::delegate. */
  method CopyLoop(d: Database, snd: nat, rcv: nat, sndBase: nat, rcvBase: nat, ord: nat, a: Rights, budget: nat)
    returns (oom: bool, ghost stop: nat)
    requires d.Valid() && Aligned(sndBase, ord) && Aligned(rcvBase, ord)
    requires Shallow(d.db, d.th, snd, sndBase, ord)
    modifies d
    ensures Walking(old(d.db), old(d.th), d.db, d.th, snd, rcv, sndBase, rcvBase, ord, a, stop, d.nextId)
    ensures sndBase <= stop && (!oom ==> WalkOver(d.db, snd, sndBase, ord, stop))
    ensures oom <==> budget < |Targets(old(d.db), old(d.th), snd, sndBase, ord)|
    ensures |Behind(old(d.db), old(d.th), snd, sndBase, ord, stop)| ==
            if oom then budget else |Targets(old(d.db), old(d.th), snd, sndBase, ord)|
  {
    ghost var db0, th0 := d.db, d.th;
    var addr: nat := sndBase;
    var left := budget;
    BehindStart(db0, th0, snd, sndBase, ord);
    WalkStart(db0, th0, snd, rcv, sndBase, rcvBase, ord, a, d.nextId);
    while true
      invariant Walking(db0, th0, d.db, d.th, snd, rcv, sndBase, rcvBase, ord, a, addr, d.nextId)
      invariant sndBase <= addr && BetweenTargets(db0, th0, snd, sndBase, ord, addr)
      invariant |Behind(db0, th0, snd, sndBase, ord, addr)| + left == budget
      decreases Max(0, sndBase + Pow2(ord) - addr)
    {
      var f := LookupIn(TreeOf(d.db, snd), addr, true);
      if f.None? { break; }
      var m := f.e.id;
      if !SameBlock(InfoOf(d.db, m).base, InfoOf(d.db, m).order, sndBase, ord) { break; }
      if left == 0 {
        MoreTargets(db0, th0, d.db, d.th, snd, rcv, sndBase, rcvBase, ord, a, addr, d.nextId);
        return true, addr;
      }
      left := left - 1;
      addr := CopyNext(d, m, snd, rcv, sndBase, rcvBase, ord, a, addr, db0, th0);
    }
    oom, stop := false, addr;
    BehindEnd(db0, th0, d.db, d.th, snd, rcv, sndBase, rcvBase, ord, addr);
  }

  /** One turn; the result is the address behind the node found. */
  method CopyNext(d: Database, m: Id, snd: nat, rcv: nat, sndBase: nat, rcvBase: nat, ord: nat, a: Rights,
                  ghost addr: nat, ghost db0: Db, ghost th0: Threads)
    returns (end: nat)
    requires Inv(db0, th0) && Walking(db0, th0, d.db, d.th, snd, rcv, sndBase, rcvBase, ord, a, addr, d.nextId)
    requires Aligned(sndBase, ord) && Aligned(rcvBase, ord) && sndBase <= addr
    requires BetweenTargets(db0, th0, snd, sndBase, ord, addr) && Shallow(db0, th0, snd, sndBase, ord)
    requires LookupIn(TreeOf(d.db, snd), addr, true).Some? && m == LookupIn(TreeOf(d.db, snd), addr, true).e.id
    requires SameBlock(InfoOf(d.db, m).base, InfoOf(d.db, m).order, sndBase, ord)
    modifies d
    ensures addr < end && addr < sndBase + Pow2(ord) && BetweenTargets(db0, th0, snd, sndBase, ord, end)
    ensures |Behind(db0, th0, snd, sndBase, ord, end)| == |Behind(db0, th0, snd, sndBase, ord, addr)| + 1
    ensures Walking(db0, th0, d.db, d.th, snd, rcv, sndBase, rcvBase, ord, a, end, d.nextId)
  {
    LookupIsLive(d.db, d.db, d.th, snd, addr);
    ghost var db, th, n := d.db, d.th, d.nextId;
    end := Top(EntryOf(d.db, m));
    ghost var ok, r, k := CopyNode(d, m, rcv, sndBase, rcvBase, ord, a);
    TurnDone(db0, th0, db, th, snd, rcv, sndBase, rcvBase, ord, a, addr, n, m, r, k, ok);
  }

  /** The next node at or behind addr is none of the window. */
  predicate WalkOver(db: Db, snd: nat, sndBase: nat, ord: nat, addr: nat) {
    var f := LookupIn(TreeOf(db, snd), addr, true);
    f.None? || !SameBlock(InfoOf(db, f.e.id).base, InfoOf(db, f.e.id).order, sndBase, ord)
  }

  /** At the end of the walk the whole window has been copied. */
  lemma CopyEnd(db0: Db, th0: Threads, db: Db, th: Threads, snd: nat, rcv: nat, sndBase: nat, rcvBase: nat, ord: nat,
                a: Rights, addr: nat, nextId: Id)
    requires Inv(db0, th0) && Copying(db0, th0, db, th, snd, rcv, sndBase, rcvBase, ord, a, addr, nextId)
    requires Aligned(sndBase, ord) && Aligned(rcvBase, ord) && sndBase <= addr
    requires WalkOver(db, snd, sndBase, ord, addr)
    ensures EmptyWindow(db0, rcv, rcvBase, ord) ==> CopiedAll(db0, db, snd, rcv, sndBase, rcvBase, ord, a)
  {
    if EmptyWindow(db0, rcv, rcvBase, ord) {
      forall x: nat | InRange(x, rcvBase, ord)
        ensures MapAt(db, rcv, x) == Copied(MapAt(db0, snd, x - rcvBase + sndBase), a)
      {
        var y := x - rcvBase + sndBase;
        if addr <= y { WalkEnd(db0, th0, db, th, snd, rcv, sndBase, rcvBase, ord, a, addr, nextId, y); }
      }
    }
  }

  lemma WalkStart(db: Db, th: Threads, snd: nat, rcv: nat, sndBase: nat, rcvBase: nat, ord: nat, a: Rights, nextId: Id)
    requires Inv(db, th) && Unused(db, th, nextId)
    ensures Walking(db, th, db, th, snd, rcv, sndBase, rcvBase, ord, a, sndBase, nextId)
    ensures BetweenTargets(db, th, snd, sndBase, ord, sndBase)
  {
  }

  // ----- one turn of the loop

  /** The database after node n may have been linked behind m. */
  function WithCopy(db: Db, m: Id, n: Id, rcv: nat, sndBase: nat, rcvBase: nat, ord: nat, a: Rights, ok: bool): Db {
    if ok && Attr(db, m) * a != {}
    then AddChild(db, m, n, ChildInfo(db, m, rcv, sndBase, rcvBase, ord), Attr(db, m) * a)
    else db
  }

  ghost function WithCopyThreads(db: Db, th: Threads, m: Id, n: Id, r: Id, k: nat, a: Rights, ok: bool): Threads
    requires r in th.lists && k < |th.lists[r]|
  {
    if ok && Attr(db, m) * a != {} then AddToThreads(th, r, k, n) else th
  }

  /** The situation at a turn for node m, which position k of list r holds; ok says whether its range is free. */
  ghost predicate Turn(db0: Db, th0: Threads, db: Db, th: Threads, snd: nat, rcv: nat, sndBase: nat, rcvBase: nat,
                       ord: nat, a: Rights, addr: nat, n: Id, m: Id, r: Id, k: nat, ok: bool) {
    && Inv(db0, th0) && Copying(db0, th0, db, th, snd, rcv, sndBase, rcvBase, ord, a, addr, n)
    && Derives(db0, th0, db, th, snd, rcv, sndBase, rcvBase, ord, a)
    && Facing(db, th, snd, sndBase, ord, addr, m) && Aligned(sndBase, ord) && Aligned(rcvBase, ord)
    && InfoOf(db, m).dpth < 0xffff && Target(db0, th0, snd, sndBase, ord, m) && InfoOf(db, m) == InfoOf(db0, m)
    && r in th.lists && k < |th.lists[r]| && th.lists[r][k] == m
    && var c := ChildInfo(db, m, rcv, sndBase, rcvBase, ord); (ok <==> Free(TreeOf(db, rcv), Entry(c.base, c.order, n)))
  }

  /** The mappings and the new nodes after the turn. A node whose rights turn out empty is taken out of the tree again,
      which leaves the tree as it was (InsertThenRemove). */
  lemma TurnCopies(db0: Db, th0: Threads, db: Db, th: Threads, snd: nat, rcv: nat, sndBase: nat, rcvBase: nat,
                   ord: nat, a: Rights, addr: nat, n: Id, m: Id, r: Id, k: nat, ok: bool)
    requires Turn(db0, th0, db, th, snd, rcv, sndBase, rcvBase, ord, a, addr, n, m, r, k, ok)
    ensures var db' := WithCopy(db, m, n, rcv, sndBase, rcvBase, ord, a, ok);
            var th' := WithCopyThreads(db, th, m, n, r, k, a, ok);
            && Copying(db0, th0, db', th', snd, rcv, sndBase, rcvBase, ord, a, Top(EntryOf(db, m)), n + 1)
            && Derives(db0, th0, db', th', snd, rcv, sndBase, rcvBase, ord, a)
  {
    if ok && Attr(db, m) * a != {} {
      ChildAddable(db, th, m, n, snd, rcv, sndBase, rcvBase, ord);
      AddStep(db0, th0, db, th, snd, rcv, sndBase, rcvBase, ord, a, addr, n, m, r, k);
      AddDerives(db0, th0, db, th, snd, rcv, sndBase, rcvBase, ord, a, m, n, r, k);
    } else {
      SkipStep(db0, th0, db, th, snd, rcv, sndBase, rcvBase, ord, a, addr, n, m);
    }
  }

  /** A target is a node that sends. */
  lemma TargetSends(db: Db, th: Threads, snd: nat, sndBase: nat, ord: nat, m: Id)
    requires Trees(db, th) && Target(db, th, snd, sndBase, ord, m) && Aligned(sndBase, ord)
    ensures Sends(db, th, snd, sndBase, ord, m)
  {
    WindowPart(db, th, snd, sndBase, ord, m);
    SameBlockIsOverlap(InfoOf(db, m).base, InfoOf(db, m).order, sndBase, ord);
  }

  /** Different nodes are passed on to different places. */
  lemma CopiesApart(db: Db, th: Threads, snd: nat, rcv: nat, sndBase: nat, rcvBase: nat, ord: nat, m: Id, p: Id)
    requires Trees(db, th) && Aligned(sndBase, ord) && Aligned(rcvBase, ord) && m != p
    requires Target(db, th, snd, sndBase, ord, m) && Target(db, th, snd, sndBase, ord, p)
    ensures var c, e := ChildInfo(db, m, rcv, sndBase, rcvBase, ord), ChildInfo(db, p, rcv, sndBase, rcvBase, ord);
            !Overlaps(Entry(e.base, e.order, p), Entry(c.base, c.order, m))
  {
    TargetSends(db, th, snd, sndBase, ord, m);
    TargetSends(db, th, snd, sndBase, ord, p);
    ChildRange(db, th, m, snd, rcv, sndBase, rcvBase, ord);
    ChildRange(db, th, p, snd, rcv, sndBase, rcvBase, ord);
    RangesDisjoint(db, th, m, p);
  }

  /** Room that was there at the start is there until the node is copied. */
  lemma StillRoom(db0: Db, th0: Threads, db: Db, th: Threads, snd: nat, rcv: nat, sndBase: nat, rcvBase: nat, ord: nat,
                  a: Rights, m: Id)
    requires Inv(db0, th0) && Inv(db, th) && Extends(db0, th0, db, th, rcv, rcvBase, ord)
    requires Derives(db0, th0, db, th, snd, rcv, sndBase, rcvBase, ord, a)
    requires Aligned(sndBase, ord) && Aligned(rcvBase, ord) && Target(db0, th0, snd, sndBase, ord, m)
    requires RoomFor(db0, rcv, sndBase, rcvBase, ord, m) && !HasCopy(th0, db, th, m)
    ensures RoomFor(db, rcv, sndBase, rcvBase, ord, m)
  {
    var c, t := ChildInfo(db0, m, rcv, sndBase, rcvBase, ord), TreeOf(db, rcv);
    assert InfoOf(db, m) == InfoOf(db0, m) by { assert Live(th0, m); }
    assert TreeOk(db, th, rcv);
    forall j | 0 <= j < |t|
      ensures !Overlaps(t[j], Entry(c.base, c.order, m))
    {
      assert t[j] in t && Live(th, t[j].id) && t[j] == EntryOf(db, t[j].id);
      OutOfTheWay(db0, th0, db, th, snd, rcv, sndBase, rcvBase, ord, a, m, t[j].id);
    }
  }

  lemma OutOfTheWay(db0: Db, th0: Threads, db: Db, th: Threads, snd: nat, rcv: nat, sndBase: nat, rcvBase: nat,
                    ord: nat, a: Rights, m: Id, x: Id)
    requires Trees(db0, th0) && Extends(db0, th0, db, th, rcv, rcvBase, ord)
    requires Derives(db0, th0, db, th, snd, rcv, sndBase, rcvBase, ord, a)
    requires Aligned(sndBase, ord) && Aligned(rcvBase, ord) && Target(db0, th0, snd, sndBase, ord, m)
    requires RoomFor(db0, rcv, sndBase, rcvBase, ord, m) && !HasCopy(th0, db, th, m)
    requires Live(th, x) && InfoOf(db, x).space == rcv
    ensures var c := ChildInfo(db0, m, rcv, sndBase, rcvBase, ord);
            !Overlaps(EntryOf(db, x), Entry(c.base, c.order, m))
  {
    if Live(th0, x) {
      assert InfoOf(db, x) == InfoOf(db0, x) && InTree(db0, x);
    } else {
      assert CopyOfTarget(db0, th0, db, snd, rcv, sndBase, rcvBase, ord, a, x);
      CopiesApart(db0, th0, snd, rcv, sndBase, rcvBase, ord, m, db.links.prnt[x]);
    }
  }

  /** What was copied before a turn still is, and m is if it could be. */
  lemma StillCopied(th0: Threads, db: Db, th: Threads, rcv: nat, sndBase: nat, rcvBase: nat, ord: nat, a: Rights, n: Id,
                    m: Id, r: Id, k: nat, ok: bool, x: Id)
    requires r in th.lists && k < |th.lists[r]| && n !in th.home && HasCopy(th0, db, th, x)
    ensures HasCopy(th0, WithCopy(db, m, n, rcv, sndBase, rcvBase, ord, a, ok),
                    WithCopyThreads(db, th, m, n, r, k, a, ok), x)
  {
    var db' := WithCopy(db, m, n, rcv, sndBase, rcvBase, ord, a, ok);
    var th' := WithCopyThreads(db, th, m, n, r, k, a, ok);
    var y :| Live(th, y) && !Live(th0, y) && y in db.links.prnt && db.links.prnt[y] == x;
    assert y != n && Live(th', y) && y in db'.links.prnt && db'.links.prnt[y] == x;
  }

  lemma NowCopied(db0: Db, th0: Threads, db: Db, th: Threads, snd: nat, rcv: nat, sndBase: nat, rcvBase: nat,
                  ord: nat, a: Rights, addr: nat, n: Id, m: Id, r: Id, k: nat, ok: bool)
    requires Turn(db0, th0, db, th, snd, rcv, sndBase, rcvBase, ord, a, addr, n, m, r, k, ok)
    requires Attr(db0, m) * a != {} && RoomFor(db0, rcv, sndBase, rcvBase, ord, m) && !HasCopy(th0, db, th, m)
    ensures HasCopy(th0, WithCopy(db, m, n, rcv, sndBase, rcvBase, ord, a, ok),
                    WithCopyThreads(db, th, m, n, r, k, a, ok), m)
  {
    var db' := WithCopy(db, m, n, rcv, sndBase, rcvBase, ord, a, ok);
    var th' := WithCopyThreads(db, th, m, n, r, k, a, ok);
    StillRoom(db0, th0, db, th, snd, rcv, sndBase, rcvBase, ord, a, m);
    assert Live(th0, m);
    assert Live(th', n) && !Live(th0, n) && n in db'.links.prnt && db'.links.prnt[n] == m;
  }

  lemma TurnMakesCopy(db0: Db, th0: Threads, db: Db, th: Threads, snd: nat, rcv: nat, sndBase: nat, rcvBase: nat,
                      ord: nat, a: Rights, addr: nat, n: Id, m: Id, r: Id, k: nat, ok: bool, x: Id)
    requires Turn(db0, th0, db, th, snd, rcv, sndBase, rcvBase, ord, a, addr, n, m, r, k, ok)
    requires Copyable(db0, th0, snd, rcv, sndBase, rcvBase, ord, a, addr, x) ==> HasCopy(th0, db, th, x)
    requires Top(EntryOf(db0, x)) <= addr || x == m
    requires Attr(db0, x) * a != {} && RoomFor(db0, rcv, sndBase, rcvBase, ord, x)
    requires Target(db0, th0, snd, sndBase, ord, x)
    ensures HasCopy(th0, WithCopy(db, m, n, rcv, sndBase, rcvBase, ord, a, ok),
                    WithCopyThreads(db, th, m, n, r, k, a, ok), x)
  {
    if HasCopy(th0, db, th, x) {
      StillCopied(th0, db, th, rcv, sndBase, rcvBase, ord, a, n, m, r, k, ok, x);
    } else {
      NowCopied(db0, th0, db, th, snd, rcv, sndBase, rcvBase, ord, a, addr, n, m, r, k, ok);
    }
  }

  /** All that the loop keeps, with the copies made so far. */
  ghost predicate Walking(db0: Db, th0: Threads, db: Db, th: Threads, snd: nat, rcv: nat, sndBase: nat, rcvBase: nat,
                          ord: nat, a: Rights, addr: nat, nextId: Id) {
    && Copying(db0, th0, db, th, snd, rcv, sndBase, rcvBase, ord, a, addr, nextId)
    && Derives(db0, th0, db, th, snd, rcv, sndBase, rcvBase, ord, a)
    && CopiesMade(db0, th0, db, th, snd, rcv, sndBase, rcvBase, ord, a, addr)
  }

  lemma TurnWalks(db0: Db, th0: Threads, db: Db, th: Threads, snd: nat, rcv: nat, sndBase: nat, rcvBase: nat,
                  ord: nat, a: Rights, addr: nat, n: Id, m: Id, r: Id, k: nat, ok: bool)
    requires Turn(db0, th0, db, th, snd, rcv, sndBase, rcvBase, ord, a, addr, n, m, r, k, ok)
    requires CopiesMade(db0, th0, db, th, snd, rcv, sndBase, rcvBase, ord, a, addr)
    ensures Walking(db0, th0, WithCopy(db, m, n, rcv, sndBase, rcvBase, ord, a, ok),
                    WithCopyThreads(db, th, m, n, r, k, a, ok), snd, rcv, sndBase, rcvBase, ord, a,
                    Top(EntryOf(db0, m)), n + 1)
  {
    TurnCopies(db0, th0, db, th, snd, rcv, sndBase, rcvBase, ord, a, addr, n, m, r, k, ok);
    TurnMakesCopies(db0, th0, db, th, snd, rcv, sndBase, rcvBase, ord, a, addr, n, m, r, k, ok);
  }

  lemma TurnMakesCopies(db0: Db, th0: Threads, db: Db, th: Threads, snd: nat, rcv: nat, sndBase: nat, rcvBase: nat,
                        ord: nat, a: Rights, addr: nat, n: Id, m: Id, r: Id, k: nat, ok: bool)
    requires Turn(db0, th0, db, th, snd, rcv, sndBase, rcvBase, ord, a, addr, n, m, r, k, ok)
    requires CopiesMade(db0, th0, db, th, snd, rcv, sndBase, rcvBase, ord, a, addr)
    ensures CopiesMade(db0, th0, WithCopy(db, m, n, rcv, sndBase, rcvBase, ord, a, ok),
                       WithCopyThreads(db, th, m, n, r, k, a, ok), snd, rcv, sndBase, rcvBase, ord, a,
                       Top(EntryOf(db0, m)))
  {
    BehindNext(db0, th0, db, th, snd, rcv, sndBase, rcvBase, ord, addr, m);
    forall x | Copyable(db0, th0, snd, rcv, sndBase, rcvBase, ord, a, Top(EntryOf(db0, m)), x)
      ensures HasCopy(th0, WithCopy(db, m, n, rcv, sndBase, rcvBase, ord, a, ok),
                      WithCopyThreads(db, th, m, n, r, k, a, ok), x)
    {
      assert x in Behind(db0, th0, snd, sndBase, ord, Top(EntryOf(db0, m)));
      TurnMakesCopy(db0, th0, db, th, snd, rcv, sndBase, rcvBase, ord, a, addr, n, m, r, k, ok, x);
    }
  }

  /** A whole turn: where it starts from and what it gives. */
  lemma TurnDone(db0: Db, th0: Threads, db: Db, th: Threads, snd: nat, rcv: nat, sndBase: nat, rcvBase: nat, ord: nat,
                 a: Rights, addr: nat, n: Id, m: Id, r: Id, k: nat, ok: bool)
    requires Inv(db0, th0) && Walking(db0, th0, db, th, snd, rcv, sndBase, rcvBase, ord, a, addr, n)
    requires Aligned(sndBase, ord) && Aligned(rcvBase, ord) && sndBase <= addr
    requires BetweenTargets(db0, th0, snd, sndBase, ord, addr) && Shallow(db0, th0, snd, sndBase, ord)
    requires LookupIn(TreeOf(db, snd), addr, true).Some? && m == LookupIn(TreeOf(db, snd), addr, true).e.id
    requires SameBlock(InfoOf(db, m).base, InfoOf(db, m).order, sndBase, ord)
    requires var c := ChildInfo(db, m, rcv, sndBase, rcvBase, ord);
             ok <==> Free(TreeOf(db, rcv), Entry(c.base, c.order, n))
    requires r in th.lists && k < |th.lists[r]| && th.lists[r][k] == m
    ensures var e := Top(EntryOf(db, m));
            && addr < e && addr < sndBase + Pow2(ord) && BetweenTargets(db0, th0, snd, sndBase, ord, e)
            && |Behind(db0, th0, snd, sndBase, ord, e)| == |Behind(db0, th0, snd, sndBase, ord, addr)| + 1
            && Walking(db0, th0, WithCopy(db, m, n, rcv, sndBase, rcvBase, ord, a, ok),
                       WithCopyThreads(db, th, m, n, r, k, a, ok), snd, rcv, sndBase, rcvBase, ord, a, e, n + 1)
  {
    FacingNext(db0, th0, db, th, snd, rcv, sndBase, rcvBase, ord, a, addr, n);
    MoreTargets(db0, th0, db, th, snd, rcv, sndBase, rcvBase, ord, a, addr, n);
    BehindTarget(db0, th0, snd, sndBase, ord, m);
    TurnWalks(db0, th0, db, th, snd, rcv, sndBase, rcvBase, ord, a, addr, n, m, r, k, ok);
  }

  /** The body of the loop: create a node, insert it into the receiver's tree and behind its parent, which is node k of
      list r. */
  method CopyNode(d: Database, m: Id, rcv: nat, sndBase: nat, rcvBase: nat, ord: nat, a: Rights)
    returns (ok: bool, ghost r: Id, ghost k: nat)
    requires Threaded(d.db, d.th) && Live(d.th, m)
    modifies d
    ensures r in old(d.th).lists && k < |old(d.th).lists[r]| && old(d.th).lists[r][k] == m
    ensures var c := ChildInfo(old(d.db), m, rcv, sndBase, rcvBase, ord);
            ok <==> Free(TreeOf(old(d.db), rcv), Entry(c.base, c.order, old(d.nextId)))
    ensures d.db == WithCopy(old(d.db), m, old(d.nextId), rcv, sndBase, rcvBase, ord, a, ok)
    ensures d.th == WithCopyThreads(old(d.db), old(d.th), m, old(d.nextId), r, k, a, ok)
    ensures d.nextId == old(d.nextId) + 1
  {
    r, k := Locate(d.db, d.th, m);
    var n := d.nextId;
    d.nextId := n + 1;
    var info := ChildInfo(d.db, m, rcv, sndBase, rcvBase, ord);
    ok := FreeIn(TreeOf(d.db, rcv), Entry(info.base, info.order, n));
    d.th := WithCopyThreads(d.db, d.th, m, n, r, k, a, ok);
    d.db := WithCopy(d.db, m, n, rcv, sndBase, rcvBase, ord, a, ok);
  }

  // ----- the greatest depth can be reached

  /** The one node of a space at its address 0. */
  ghost predicate OnlyNode(db: Db, th: Threads, sp: nat, n: Id) {
    Live(th, n) && InfoOf(db, n) == Info(sp, 0, 0, 0, sp) && Attr(db, n) == {0}
  }

  lemma OnlyTarget(db: Db, th: Threads, sp: nat, n: Id, m: Id)
    requires Trees(db, th) && OnlyNode(db, th, sp, n) && Target(db, th, sp, 0, 0, m)
    ensures m == n
  {
    if m != n { RangesDisjoint(db, th, m, n); }
  }

  /** Address 0 of the next space is free, and its sender is a single node that is not too deep. */
  lemma ReadyForNext(db: Db, th: Threads, sp: nat, n: Id)
    requires Inv(db, th) && OnlyNode(db, th, sp, n) && sp < 0xffff
    requires forall m :: Live(th, m) ==> InfoOf(db, m).space <= sp
    ensures Shallow(db, th, sp, 0, 0) && |Targets(db, th, sp, 0, 0)| <= 1 && EmptyWindow(db, sp + 1, 0, 0)
  {
    forall m | Target(db, th, sp, 0, 0, m)
      ensures m == n
    { OnlyTarget(db, th, sp, n, m); }
    SubsetSize(Targets(db, th, sp, 0, 0), {n});
    var t := TreeOf(db, sp + 1);
    assert TreeOk(db, th, sp + 1);
    forall x: nat | InRange(x, 0, 0)
      ensures MapAt(db, sp + 1, x) == Unmapped
    { LookupMeaning(t, x, false); }
  }

  /** What delegating address 0 from one space to the next gives. */
  lemma NextOnlyNode(db0: Db, th0: Threads, db: Db, th: Threads, sp: nat, n: Id) returns (n': Id)
    requires Inv(db0, th0) && Inv(db, th) && OnlyNode(db0, th0, sp, n) && sp < 0xffff
    requires forall m :: Live(th0, m) ==> InfoOf(db0, m).space <= sp
    requires Extends(db0, th0, db, th, sp + 1, 0, 0) && Derives(db0, th0, db, th, sp, sp + 1, 0, 0, 0, {0})
    requires CopiedAll(db0, db, sp, sp + 1, 0, 0, 0, {0})
    ensures OnlyNode(db, th, sp + 1, n')
  {
    MapOfTarget(db0, th0, n, 0);
    assert InRange(0, 0, 0);
    assert MapAt(db, sp + 1, 0) == Mapped(0, {0});
    var t := TreeOf(db, sp + 1);
    assert TreeOk(db, th, sp + 1);
    LookupMeaning(t, 0, false);
    n' := LookupIn(t, 0, false).e.id;
    assert CopyOfTarget(db0, th0, db, sp, sp + 1, 0, 0, 0, {0}, n');
    OnlyTarget(db0, th0, sp, n, db.links.prnt[n']);
    ShallowDepth(sp);
  }

  /** 0xffff delegations from space to space, starting with a single root, give a node of the greatest depth. */
  method Deepest() returns (d: Database, ghost n: Id)
    ensures d.Valid() && Live(d.th, n) && Depth(d.db.links, n) == 0xffff
  {
    d := new Database();
    n := d.nextId;
    assert TreeOk(d.db, d.th, 0);
    var ok := d.CreateRoot(0, 0, 0, 0, {0});
    for sp := 0 to 0xffff
      invariant d.Valid() && OnlyNode(d.db, d.th, sp, n) && forall m :: Live(d.th, m) ==> InfoOf(d.db, m).space <= sp
    {
      ghost var db0, th0 := d.db, d.th;
      ReadyForNext(db0, th0, sp, n);
      var oom, _ := Delegate(d, sp, sp + 1, 0, 0, 0, {0}, 1);
      n := NextOnlyNode(db0, th0, d.db, d.th, sp, n);
    }
  }
}
