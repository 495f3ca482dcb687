// The page-table code takes words apart with masks and shifts.  The rest of the
// model writes the same fields with `/` and `%` over `nat`; here each masked
// expression of the source is shown to be that quotient or remainder, over all
// 32-bit words.
module Bits {

  /** `Pte::from`: every field of a page-table entry. */
  lemma PteFromFields(w: bv32)
    ensures (w & 0xFFFF_FC00) >> 10 == w / 1024
    ensures (w & 0xFFFF_FC00) << 2 == (w / 1024) * 4096
    ensures (w & 0xFFF0_0000) >> 20 == w / 1024 / 1024
    ensures (w & 0x000F_FC00) >> 10 == w / 1024 % 1024
    ensures (w & 0x1E) == w % 32 / 2 * 2
    ensures (w & 0x01) == w % 2
    ensures ((w & 0x02) >= 1) == (w / 2 % 2 == 1)
    ensures ((w & 0x04) >= 1) == (w / 4 % 2 == 1)
    ensures ((w & 0x08) >= 1) == (w / 8 % 2 == 1)
    ensures ((w & 0x10) >= 1) == (w / 16 % 2 == 1)
  {
  }

  /** `VA::from`: both halves of a virtual page number. */
  lemma VaFromFields(va: bv32)
    ensures (va & 0xFFC0_0000) >> 22 == va / 4096 / 1024
    ensures (va & 0x003F_F000) >> 12 == va / 4096 % 1024
  {
  }

  /** `Pte::from_addr` followed by setting `v`, `usize::from` and `pte |= perm`:
      the frame number, the valid bit and the permissions never overlap. */
  lemma LeafWordBits(pa: bv32, perm: bv32)
    requires pa % 4096 == 0
    requires perm & 0x1E == perm
    ensures ((((pa & !0xFFF) >> 2) >> 10) << 10) | 1 | perm == (pa / 4096) * 1024 + perm + 1
  {
  }

  /** `sp &= !0x7` rounds down to a multiple of eight. */
  lemma AlignDown8Bits(sp: bv32)
    ensures sp & !0x7 == sp - sp % 8
  {
  }

  /** `SATP` with mode 1 and asid 0: bit 31 and the root's frame number. */
  lemma SatpBits(root: bv32)
    ensures ((1 as bv32) << 31) | ((0 as bv32) << 22) | (root >> 12) == 0x8000_0000 + root / 4096
  {
  }
}
