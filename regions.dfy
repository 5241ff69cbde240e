/** The fixed x86_64 virtual-address map of the Hexahedron kernel: the
    region base constants, the sizes given for some of them, and what the
    layout guarantees — bases are page-aligned and canonical, user regions
    lie in the lower half, kernel regions in the upper half, and the sized
    regions do not overlap. */
module Regions {
  import opened Address

  // ---------------------------------------------------------------------
  // The constants
  // ---------------------------------------------------------------------

  const UserspaceRegionStart: bv64 := 0x0000_0000_0000_0000
  const UserspaceRegionEnd: bv64   := 0x0000_0700_0000_0000

  const UsermodeStackRegion: bv64  := 0x0000_0600_0000_0000
  const DmaRegion: bv64            := 0x0000_0700_0000_0000
  const UsermodeDeviceRegion: bv64 := 0x0000_4000_0000_0000
  const FramebufferRegion: bv64    := 0x0000_0800_0000_0000
  const HeapRegion: bv64           := 0xFFFF_FF00_0000_0000
  const PhysmemMapRegion: bv64     := 0xFFFF_FF80_0000_0000
  const MmioRegion: bv64           := 0xFFFF_FFF0_0000_0000
  const DriverRegion: bv64         := 0xFFFF_FFFF_0000_0000

  const MmioRegionSize: bv64       := 0x0000_0001_0000_0000
  const UsermodeStackSize: bv64    := 0x0000_0100_0000_0000
  const DmaRegionSize: bv64        := 0x0000_0001_0000_0000
  const PhysmemMapSize: bv64       := 0x0000_0010_0000_0000
  const DriverRegionSize: bv64     := 0x0000_0000_8000_0000

  /** Every region base the header defines, in declaration order. */
  const Bases: seq<bv64> :=
    [UserspaceRegionStart, UserspaceRegionEnd, UsermodeStackRegion, DmaRegion,
     UsermodeDeviceRegion, FramebufferRegion, HeapRegion, PhysmemMapRegion,
     MmioRegion, DriverRegion]

  // ---------------------------------------------------------------------
  // Regions as half-open address ranges
  // ---------------------------------------------------------------------

  /** The addresses `[base, base + size)`. The end is computed without
      wrapping, so a region that would run past 2^64 shows it. */
  datatype Region = Region(base: bv64, size: bv64)

  function End(r: Region): int
  {
    r.base as int + r.size as int
  }

  predicate Contains(r: Region, addr: bv64)
  {
    r.base as int <= addr as int < End(r)
  }

  /** The regions the header gives a size for, by increasing address. */
  const UsermodeStack := Region(UsermodeStackRegion, UsermodeStackSize)
  const Dma := Region(DmaRegion, DmaRegionSize)
  const PhysmemMap := Region(PhysmemMapRegion, PhysmemMapSize)
  const Mmio := Region(MmioRegion, MmioRegionSize)
  const Driver := Region(DriverRegion, DriverRegionSize)

  const Sized: seq<Region> := [UsermodeStack, Dma, PhysmemMap, Mmio, Driver]

  /** Each region ends at or before the next one starts. */
  predicate Ordered(rs: seq<Region>)
  {
    forall i :: 0 <= i < |rs| - 1 ==> End(rs[i]) <= rs[i + 1].base as int
  }

  /** In an ordered list every region ends at or before any later region
      starts, not only the next one. */
  lemma {:induction false} OrderedEndsBefore(rs: seq<Region>, i: nat, j: nat)
    requires Ordered(rs) && i < j < |rs|
    ensures End(rs[i]) <= rs[j].base as int
  {
    if j > i + 1 {
      OrderedEndsBefore(rs, i, j - 1);
      assert End(rs[j - 1]) <= rs[j].base as int;
    }
  }

  /** Regions of an ordered list share no address. */
  lemma OrderedDisjoint(rs: seq<Region>, i: nat, j: nat, addr: bv64)
    requires Ordered(rs) && i < |rs| && j < |rs| && i != j
    ensures !(Contains(rs[i], addr) && Contains(rs[j], addr))
  {
    if i < j {
      OrderedEndsBefore(rs, i, j);
    } else {
      OrderedEndsBefore(rs, j, i);
    }
  }

  // ---------------------------------------------------------------------
  // The layout
  // ---------------------------------------------------------------------

  /** The sized regions are listed by address, each ending before the next
      begins. */
  lemma SizedRegionsOrdered()
    ensures Ordered(Sized)
  {
  }

  /** No address lies in two of the sized regions. */
  lemma SizedRegionsDisjoint(i: nat, j: nat, addr: bv64)
    requires i < |Sized| && j < |Sized| && i != j
    ensures !(Contains(Sized[i], addr) && Contains(Sized[j], addr))
  {
    SizedRegionsOrdered();
    OrderedDisjoint(Sized, i, j, addr);
  }

  /** The usermode stack starts inside user space and ends exactly where
      user space ends, which is where DMA starts. */
  lemma UserspaceBoundaries()
    ensures End(UsermodeStack) == UserspaceRegionEnd as int
    ensures UserspaceRegionEnd == DmaRegion
    ensures UserspaceRegionStart <= UsermodeStackRegion < UserspaceRegionEnd
  {
  }

  /** The neighbours the sizes keep apart: DMA ends below the framebuffer,
      the physical-memory map below MMIO, MMIO below the driver region, and
      the heap starts below the physical-memory map. */
  lemma NeighboursDoNotOverlap()
    ensures End(Dma) <= FramebufferRegion as int
    ensures End(PhysmemMap) <= MmioRegion as int
    ensures End(Mmio) <= DriverRegion as int
    ensures HeapRegion < PhysmemMapRegion
  {
  }

  /** The driver region ends 2 GiB below the top of the address space. */
  lemma DriverRegionEnd()
    ensures End(Driver) == 0xFFFF_FFFF_8000_0000
  {
  }

  /** Every base is page-aligned and canonical, both by the header's macro
      and architecturally; user bases lie in the lower half and kernel bases
      in the upper half. */
  lemma BasesAlignedAndCanonical()
    ensures forall b :: b in Bases ==> PageAligned(b)
    ensures forall b :: b in Bases ==> IsCanonical(b) && IsCanonicalSdm(b)
    ensures forall b :: b in Bases ==> b < 0x0000_8000_0000_0000 || b >= 0xFFFF_8000_0000_0000
  {
  }

  /** Each sized region lies wholly inside one canonical half: below 2^47,
      or at or above 2^64 - 2^47. */
  lemma SizedRegionsInCanonicalHalves()
    ensures forall r :: r in Sized ==>
              End(r) <= 0x0000_8000_0000_0000 || r.base as int >= 0xFFFF_8000_0000_0000
  {
  }

  /** Every address of the lower half is canonical, so every address of a
      region below 2^47 is. */
  lemma LowerHalfCanonical(addr: bv64)
    requires addr as int < 0x0000_8000_0000_0000
    ensures IsCanonicalSdm(addr)
  {
    assert addr < 0x0000_8000_0000_0000;
  }

  /** Every address of the upper half is canonical, so every address of a
      region starting at or above 2^64 - 2^47 is. */
  lemma UpperHalfCanonical(addr: bv64)
    requires addr as int >= 0xFFFF_8000_0000_0000
    ensures IsCanonicalSdm(addr)
  {
    assert addr >= 0xFFFF_8000_0000_0000;
  }
}
