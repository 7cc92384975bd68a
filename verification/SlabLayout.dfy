/** How src/slab.cpp lays out a slab: a header, and objects with a link word each. */
module SlabLayout {
  import opened Bits
  import opened Machine
  import opened Shifts

  /** Five words. */
  const HEADER: nat := 40

  // ----- layout

  /** Bytes of an object, of its buffer with the link behind it, and objects in a slab. */
  datatype Layout = Layout(size: nat, buff: nat, elem: nat)

  function LayoutFor(bytes: nat, align: nat): Layout
    requires align > 0
  {
    AlignUpFacts(bytes, WORD_BYTES);
    AlignUpFacts(AlignUp(bytes, WORD_BYTES) + WORD_BYTES, align);
    var size := AlignUp(bytes, WORD_BYTES);
    var buff := AlignUp(size + WORD_BYTES, align);
    Layout(size, buff, (PAGE - HEADER) / buff)
  }

  predicate Fits(y: Layout) { y.elem > 0 && y.size + WORD_BYTES <= y.buff && HEADER + y.elem * y.buff <= PAGE }

  /** Object j of a slab, counted from the end of the page. */
  function Object(y: Layout, page: nat, j: nat): int { page * PAGE + PAGE - y.buff * (j + 1) }

  predicate IsObject(y: Layout, page: nat, p: nat) { exists j: nat :: j < y.elem && p == Object(y, page, j) }

  lemma LayoutFits(bytes: nat, align: nat)
    requires align > 0
    ensures var y := LayoutFor(bytes, align);
            && bytes <= y.size && y.buff % align == 0
            && (y.elem > 0 <==> y.buff <= PAGE - HEADER) && (y.elem > 0 ==> Fits(y))
  {
    var y := LayoutFor(bytes, align);
    AlignUpFacts(bytes, WORD_BYTES);
    AlignUpFacts(y.size + WORD_BYTES, align);
    DivBounds(PAGE - HEADER, y.buff);
  }

  lemma MulStep(b: nat, j: nat, n: nat)
    requires j < n
    ensures b <= b * (j + 1) <= n * b && b * (j + 1) == b * j + b
  {
    MulLe(j + 1, n, b);
    MulLe(1, j + 1, b);
    assert b * (j + 1) == (j + 1) * b;
  }

  /** An object and its link lie in the page, behind the header; the page can be told from the object. */
  lemma ObjectInPage(y: Layout, page: nat, j: nat)
    requires Fits(y) && j < y.elem
    ensures page * PAGE + HEADER <= Object(y, page, j) && Object(y, page, j) + y.size + WORD_BYTES <= page * PAGE + PAGE
    ensures Object(y, page, j) / PAGE == page
  {
    MulStep(y.buff, j, y.elem);
    DivUnique(Object(y, page, j), PAGE, page);
  }

  /** Objects of one slab do not overlap each other, links included. */
  lemma ObjectsApart(y: Layout, page: nat, i: nat, j: nat)
    requires Fits(y) && i < j
    ensures Object(y, page, j) + y.size + WORD_BYTES <= Object(y, page, i)
  {
    MulLe(i + 2, j + 1, y.buff);
    Distribute(i + 1, 1, y.buff);
    assert y.buff * (j + 1) == (j + 1) * y.buff && y.buff * (i + 2) == (i + 2) * y.buff;
  }

  /** Objects are aligned as asked for when the page is. */
  lemma ObjectAligned(bytes: nat, k: nat, page: nat, j: nat)
    requires k <= 12
    ensures Aligned(Object(LayoutFor(bytes, Pow2(k)), page, j), k)
  {
    var y := LayoutFor(bytes, Pow2(k));
    AlignUpFacts(y.size + WORD_BYTES, Pow2(k)) by { AlignUpFacts(bytes, WORD_BYTES); }
    assert Pow2(PAGE_BITS) == PAGE;
    AlignedMultiple(page + 1, 12);
    AlignedFiner((page + 1) * PAGE, k, PAGE_BITS);
    MultipleAligned(y.buff, k, j + 1);
    AlignedAdd((page + 1) * PAGE, y.buff * (j + 1), k);
  }

  lemma MultipleAligned(b: int, k: nat, n: int)
    requires Aligned(b, k)
    ensures Aligned(b * n, k)
  {
    var q := b / Pow2(k);
    DivBounds(b, Pow2(k));
    assert b * n == (q * n) * Pow2(k);
    AlignedMultiple(q * n, k);
  }
}
