/** Virtual-address arithmetic of the x86_64 memory header: page sizes,
    page alignment, the four page-table indices of 4-level paging, and the
    canonical-address test. Addresses are `uintptr_t`, so `bv64`, and all
    arithmetic wraps modulo 2^64 as it does in C. */
module Address {

  /** `PAGE_SIZE`: 4 KiB. */
  const PageSize: bv64 := 0x1000

  /** `PAGE_SIZE_LARGE`: 2 MiB. No operation of the header uses it. */
  const PageSizeLarge: bv64 := 0x20_0000

  /** `MEM_PAGE_SHIFT`: log2 of `PAGE_SIZE`. */
  const PageShift: nat := 12

  /** The offset-within-page bits; `~0xFFF` in C is this mask complemented
      (the `int` constant `-4096` sign-extended to 64 bits). */
  const OffsetMask: bv64 := 0xFFF

  predicate PageAligned(addr: bv64)
  {
    addr & OffsetMask == 0
  }

  // ---------------------------------------------------------------------
  // Alignment
  // ---------------------------------------------------------------------

  /** `MEM_ALIGN_PAGE(addr)`: `(addr + PAGE_SIZE) & ~0xFFF`.
      Unless the addition wraps, the result is the first page boundary
      strictly above `addr`: an address that is already aligned moves up a
      whole page. The last page of the address space wraps to 0. */
  function AlignUp(addr: bv64): (r: bv64)
    ensures PageAligned(r)
    ensures addr < 0xFFFF_FFFF_FFFF_F000 ==> addr < r <= addr + PageSize
    ensures addr >= 0xFFFF_FFFF_FFFF_F000 ==> r == 0
  {
    (addr + PageSize) & !OffsetMask
  }

  /** `MEM_ALIGN_PAGE_DESTRUCTIVE(addr)`: `addr & ~0xFFF`, the page boundary
      at or below `addr`, dropping the offset within the page. */
  function AlignDown(addr: bv64): (r: bv64)
    ensures PageAligned(r)
    ensures r + (addr & OffsetMask) == addr
  {
    addr & !OffsetMask
  }

  /** Rounding down never goes up, and goes down by less than a page. */
  lemma AlignDownWithinPage(addr: bv64)
    ensures AlignDown(addr) <= addr
    ensures addr - AlignDown(addr) < PageSize
  {
  }

  /** Rounding down is the greatest aligned address not above `addr`. */
  lemma AlignDownIsGreatest(addr: bv64, p: bv64)
    requires PageAligned(p) && p <= addr
    ensures p <= AlignDown(addr)
  {
  }

  /** Rounding down twice is rounding down once. */
  lemma AlignDownIdempotent(addr: bv64)
    ensures AlignDown(AlignDown(addr)) == AlignDown(addr)
  {
  }

  /** Rounding up is always rounding down plus one page (modulo 2^64). */
  lemma AlignUpIsAlignDownPlusPage(addr: bv64)
    ensures AlignUp(addr) == AlignDown(addr) + PageSize
  {
  }

  /** An aligned address below the last page advances by exactly one page. */
  lemma AlignUpAdvancesAligned(addr: bv64)
    requires PageAligned(addr) && addr < 0xFFFF_FFFF_FFFF_F000
    ensures AlignUp(addr) == addr + PageSize
    ensures AlignUp(addr) != addr
  {
  }

  // ---------------------------------------------------------------------
  // Page-table indices
  // ---------------------------------------------------------------------

  /** `MEM_PML4_INDEX(x)`: the 9-bit index into the PML4, bits 39 to 47. */
  function Pml4Index(x: bv64): (i: bv64)
    ensures i < 512
    ensures i << 39 == x & 0x0000_FF80_0000_0000
  {
    (x >> (PageShift + 27)) & 0x1FF
  }

  /** `MEM_PDPT_INDEX(x)`: the 9-bit index into the page-directory-pointer
      table, bits 30 to 38. */
  function PdptIndex(x: bv64): (i: bv64)
    ensures i < 512
    ensures i << 30 == x & 0x0000_007F_C000_0000
  {
    (x >> (PageShift + 18)) & 0x1FF
  }

  /** `MEM_PAGEDIR_INDEX(x)`: the 9-bit index into the page directory,
      bits 21 to 29. */
  function PageDirIndex(x: bv64): (i: bv64)
    ensures i < 512
    ensures i << 21 == x & 0x0000_0000_3FE0_0000
  {
    (x >> (PageShift + 9)) & 0x1FF
  }

  /** `MEM_PAGETBL_INDEX(x)`: the 9-bit index into the page table,
      bits 12 to 20. */
  function PageTableIndex(x: bv64): (i: bv64)
    ensures i < 512
    ensures i << 12 == x & 0x0000_0000_001F_F000
  {
    (x >> PageShift) & 0x1FF
  }

  /** The four indices and the page offset rebuild every address below 2^48. */
  lemma IndicesRecompose(addr: bv64)
    requires addr < 0x1_0000_0000_0000
    ensures addr == (Pml4Index(addr) << 39) | (PdptIndex(addr) << 30)
                    | (PageDirIndex(addr) << 21) | (PageTableIndex(addr) << 12)
                    | (addr & OffsetMask)
  {
  }

  /** Two addresses with the same upper 16 bits, the same four indices and
      the same page offset are the same address. */
  lemma IndicesDetermineAddress(a: bv64, b: bv64)
    requires a >> 48 == b >> 48
    requires Pml4Index(a) == Pml4Index(b) && PdptIndex(a) == PdptIndex(b)
    requires PageDirIndex(a) == PageDirIndex(b) && PageTableIndex(a) == PageTableIndex(b)
    requires a & OffsetMask == b & OffsetMask
    ensures a == b
  {
  }

  /** Dropping the page offset does not change which entries a walk selects. */
  lemma AlignDownKeepsIndices(addr: bv64)
    ensures Pml4Index(AlignDown(addr)) == Pml4Index(addr)
    ensures PdptIndex(AlignDown(addr)) == PdptIndex(addr)
    ensures PageDirIndex(AlignDown(addr)) == PageDirIndex(addr)
    ensures PageTableIndex(AlignDown(addr)) == PageTableIndex(addr)
  {
  }

  /** The second page of the kernel heap sits in PML4 slot 510, at page
      table slot 1. */
  lemma HeapPageIndices()
    ensures Pml4Index(0xFFFF_FF00_0000_1000) == 510
    ensures PdptIndex(0xFFFF_FF00_0000_1000) == 0
    ensures PageDirIndex(0xFFFF_FF00_0000_1000) == 0
    ensures PageTableIndex(0xFFFF_FF00_0000_1000) == 1
  {
  }

  // ---------------------------------------------------------------------
  // Canonical addresses
  // ---------------------------------------------------------------------

  /** The bits `MEM_IS_CANONICAL` looks at: 48 to 63. */
  const HighMask: bv64 := 0xFFFF_0000_0000_0000

  /** `MEM_IS_CANONICAL(addr)`, as written: bits 48 to 63 are all ones or all
      zeros. Bit 47 is not consulted. */
  function IsCanonical(addr: bv64): (b: bool)
    ensures b <==> (addr >> 48 == 0 || addr >> 48 == 0xFFFF)
  {
    (addr & HighMask) == HighMask || (addr & HighMask) == 0
  }

  lemma CanonicalExamples()
    ensures IsCanonical(0)
    ensures IsCanonical(0xFFFF_FFFF_8000_0000)
    ensures !IsCanonical(0x0001_0000_0000_0000)
    ensures !IsCanonical(0x8000_0000_0000_0000)
  {
  }

  /** The 64-bit sign extension of the low 48 bits of `x`. */
  function SignExtend48(x: bv64): (r: bv64)
    ensures r & 0xFFFF_FFFF_FFFF == x & 0xFFFF_FFFF_FFFF
    ensures r >> 47 == 0 || r >> 47 == 0x1_FFFF
  {
    if x & 0x8000_0000_0000 == 0 then x & 0xFFFF_FFFF_FFFF
    else x | HighMask
  }

  /** Canonical in the architectural sense: bits 48 to 63 repeat bit 47,
      i.e. the address is the sign extension of its low 48 bits. */
  function IsCanonicalSdm(addr: bv64): (b: bool)
    ensures b <==> addr == SignExtend48(addr)
  {
    addr >> 47 == 0 || addr >> 47 == 0x1_FFFF
  }

  /** Every architecturally canonical address passes the macro. */
  lemma SdmCanonicalPassesMacro(addr: bv64)
    ensures IsCanonicalSdm(addr) ==> IsCanonical(addr)
  {
  }

  /** The macro accepts exactly the canonical addresses plus those whose
      bit 47 disagrees with a uniform upper half. */
  lemma MacroAcceptsBit47Mismatch(addr: bv64)
    ensures IsCanonical(addr) && !IsCanonicalSdm(addr)
            <==> (addr >> 47 == 0x1 || addr >> 47 == 0x1_FFFE)
  {
  }

  /** Two non-canonical addresses that the macro lets through. */
  lemma MacroAcceptsNonCanonical()
    ensures IsCanonical(0x0000_8000_0000_0000) && !IsCanonicalSdm(0x0000_8000_0000_0000)
    ensures IsCanonical(0xFFFF_0000_0000_0000) && !IsCanonicalSdm(0xFFFF_0000_0000_0000)
  {
  }
}
