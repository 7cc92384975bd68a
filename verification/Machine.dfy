/** Page and word sizes (include/memory.hpp, include/types.hpp) and rounding up (include/bits.hpp). */
module Machine {
  import opened Bits

  const PAGE_BITS: nat := 12
  const PAGE: nat := 4096

  /** One more than the greatest 64-bit word, and the bytes of a word. */
  const WORD: nat := 0x1_0000_0000_0000_0000
  const WORD_BYTES: nat := 8

  function AlignUp(v: nat, align: nat): nat
    requires align > 0
  {
    (v + align - 1) / align * align
  }

  lemma AlignUpFacts(v: nat, align: nat)
    requires align > 0
    ensures v <= AlignUp(v, align) < v + align && AlignUp(v, align) % align == 0
  {
    var q := (v + align - 1) / align;
    DivBounds(v + align - 1, align);
    DivUnique(q * align, align, q);
    DivBounds(q * align, align);
  }
}
