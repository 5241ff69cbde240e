# x86_64 paging header of the Hexahedron kernel, in Dafny

This project models `hexahedron/include/kernel/arch/x86_64/mem.h`. The
header defines the 4-level paging entry `page_t`, the frame accessors
`MEM_SET_FRAME` and `MEM_GET_FRAME`, the four page-table index macros, the
two page-alignment macros, `MEM_IS_CANONICAL`, the `PAGE_IS_*` entry
predicates and the constants of the kernel's virtual-address map.
Addresses and entries are `uintptr_t` / `uint64_t`, so they are `bv64`
here. All arithmetic wraps modulo 2^64 as it does in C.

The project has three modules:

- `PageEntry` (`page_entry.dfy`) covers the page-table entry.
  - `page_t` is a union of a bit-field struct and a raw 64-bit `data`. The
    struct view is the datatype `Bits` and the raw view is a `bv64`.
  - `Encode` and `Decode` relate the two views under GCC's least-significant-bit-first packing.
  - A `page_t *` is an object of class `Page` whose `data` field
    `MEM_SET_FRAME` updates in place. A NULL pointer is `null`.
  - The entry follows the layout in section 4.5 of the Intel 64 and IA-32
    Architectures Software Developer's Manual, Volume 3A, with two changes:
    - a software copy-on-write bit at bit 52;
    - a physical-address field only 28 bits wide (bits 12 to 39).
- `Address` (`address.dfy`) covers the address arithmetic:
  - page alignment up and down;
  - the PML4, PDPT, page-directory and page-table indices;
  - the canonical-address test as the macro writes it;
  - next to it, the test of section 3.3.7.1 of the Intel SDM, Volume 1.
- `Regions` (`regions.dfy`) covers the region base and size constants:
  - every base is page-aligned and canonical;
  - user regions lie in the lower canonical half and kernel regions in the upper half;
  - the sized regions are ordered and pairwise disjoint;
  - the specific adjacencies the map relies on.

The comment on `MEM_IS_CANONICAL` (mem.h:99) calls it a check that an
address is canonical. Section 3.3.7.1 of the Intel SDM, Volume 1 defines
canonical as bits 48 to 63 all equal to bit 47. The macro only checks that
bits 48 to 63 are uniform. The model follows the code
(`Address.IsCanonical`), puts the architectural test beside it
(`Address.IsCanonicalSdm`), and records the gap under "## Findings".

## Model

| member | source | states |
|---|---|---|
| `PageEntry.PackedLayout` | hexahedron/include/kernel/arch/x86_64/mem.h:25-42 | Packing the declared widths in declaration order puts each field at the bit position `Lo` gives, and the widths add up to exactly 64 bits. |
| `PageEntry.MaskIsLayout` | hexahedron/include/kernel/arch/x86_64/mem.h:25-42 | The mask of each field is `Width(f)` ones starting at bit `Lo(f)`. So the masks are the packed layout of the declared widths. |
| `PageEntry.Encode` | hexahedron/include/kernel/arch/x86_64/mem.h:23-46 | Reading `data` after the struct view is written: the 28-bit `address` field lands in bits 12 to 39. |
| `PageEntry.Decode` | hexahedron/include/kernel/arch/x86_64/mem.h:23-46 | Reading `bits` after `data` is written. Writing the fields read back restores `data`, so the struct view loses no raw bit. |
| `PageEntry.EncodePlacesFlags` | hexahedron/include/kernel/arch/x86_64/mem.h:26-35 | Each of the nine one-bit flags from `present` to `global` is exactly its bit of `data`, bits 0 to 8 in declaration order. |
| `PageEntry.EncodePlacesAvailable2` | hexahedron/include/kernel/arch/x86_64/mem.h:36 | `available2` is exactly bits 9 to 11 of `data`. |
| `PageEntry.EncodePlacesReserved` | hexahedron/include/kernel/arch/x86_64/mem.h:38 | `reserved` is exactly bits 40 to 51 of `data`. |
| `PageEntry.EncodePlacesCow` | hexahedron/include/kernel/arch/x86_64/mem.h:39 | `cow` is exactly bit 52 of `data`. |
| `PageEntry.EncodePlacesAvailable3` | hexahedron/include/kernel/arch/x86_64/mem.h:40 | `available3` is exactly bits 53 to 62 of `data`. |
| `PageEntry.EncodePlacesNx` | hexahedron/include/kernel/arch/x86_64/mem.h:41 | `nx` is exactly bit 63 of `data`. |
| `PageEntry.DecodeEncode` | hexahedron/include/kernel/arch/x86_64/mem.h:23-46 | Storing a struct value through `bits` and reading `bits` back gives the same fields. |
| `PageEntry.WriteIsLocal` | hexahedron/include/kernel/arch/x86_64/mem.h:25-45 | Two struct values give raw `data` words that differ only inside the masks of the fields in which the structs differ. So assigning one bit-field changes only that field's bits. |
| `PageEntry.GetFrame` | hexahedron/include/kernel/arch/x86_64/mem.h:97 | The frame read from an entry is `data` with every bit outside 12 to 39 cleared. |
| `PageEntry.WithFrame` | hexahedron/include/kernel/arch/x86_64/mem.h:96 | After the frame is stored, bits 12 to 39 of the entry are those of `frame`, and every other bit is the entry's own. |
| `PageEntry.WithFrameKeepsFields` | hexahedron/include/kernel/arch/x86_64/mem.h:96 | Storing a frame leaves every struct field other than `address` unchanged. |
| `PageEntry.FrameRoundTrip` | hexahedron/include/kernel/arch/x86_64/mem.h:96-97 | Reading back a stored frame returns it exactly when it is 4096-aligned and below 2^40. |
| `PageEntry.FrameMaskKeeps` | hexahedron/include/kernel/arch/x86_64/mem.h:37 | The 28-bit address field holds a value unchanged exactly when the value is page-aligned and below 2^40. |
| `PageEntry.GetFrameStoresBack` | hexahedron/include/kernel/arch/x86_64/mem.h:96-97 | A frame read from any entry is aligned and below 2^40, and storing it back leaves the entry unchanged. |
| `PageEntry.Page.SetFrame` | hexahedron/include/kernel/arch/x86_64/mem.h:96 | Updates the pointed-to entry in place to the entry with the frame stored. The frame then reads back as `frame` masked to bits 12 to 39. |
| `PageEntry.IsPresent` | hexahedron/include/kernel/arch/x86_64/mem.h:102 | False for a NULL page; otherwise true exactly when bit 0 of `data` is set. |
| `PageEntry.IsWritable` | hexahedron/include/kernel/arch/x86_64/mem.h:103 | False for a NULL page; otherwise true exactly when bit 1 of `data` is set. |
| `PageEntry.IsUsermode` | hexahedron/include/kernel/arch/x86_64/mem.h:104 | False for a NULL page; otherwise true exactly when bit 2 of `data` is set. |
| `PageEntry.IsCow` | hexahedron/include/kernel/arch/x86_64/mem.h:105 | False for a NULL page; otherwise true exactly when bit 52 of `data` is set. |
| `PageEntry.IsDirty` | hexahedron/include/kernel/arch/x86_64/mem.h:106 | False for a NULL page; otherwise true exactly when bit 6 of `data` is set. |
| `PageEntry.PresentBit` | hexahedron/include/kernel/arch/x86_64/mem.h:108 | The present field is 1 exactly when bit 0 of `data` is set. |
| `PageEntry.CowBit` | hexahedron/include/kernel/arch/x86_64/mem.h:109 | The copy-on-write field is 1 exactly when bit 52 of `data` is set. |
| `PageEntry.FrameRaw` | hexahedron/include/kernel/arch/x86_64/mem.h:110 | The raw 28-bit address field, shifted up by 12, is the frame `MEM_GET_FRAME` returns. |
| `PageEntry.SetFrameKeepsPredicates` | hexahedron/include/kernel/arch/x86_64/mem.h:96-106 | After a frame is stored, all five `PAGE_IS_*` answers for the page are those of the entry before. |
| `Address.AlignUp` | hexahedron/include/kernel/arch/x86_64/mem.h:88 | The result is page-aligned. Below the last page it lies strictly above `addr` and at most one page above it. In the last page it wraps to 0. |
| `Address.AlignDown` | hexahedron/include/kernel/arch/x86_64/mem.h:89 | The result is page-aligned, and adding back the page offset of `addr` gives `addr`. |
| `Address.AlignDownWithinPage` | hexahedron/include/kernel/arch/x86_64/mem.h:89 | Rounding down never increases the address and lowers it by less than a page. |
| `Address.AlignDownIsGreatest` | hexahedron/include/kernel/arch/x86_64/mem.h:89 | Every page-aligned address not above `addr` is at most the rounded-down address. |
| `Address.AlignDownIdempotent` | hexahedron/include/kernel/arch/x86_64/mem.h:89 | Rounding down twice is the same as rounding down once. |
| `Address.AlignUpIsAlignDownPlusPage` | hexahedron/include/kernel/arch/x86_64/mem.h:88-89 | Rounding up always equals rounding down plus one page, modulo 2^64. |
| `Address.AlignUpAdvancesAligned` | hexahedron/include/kernel/arch/x86_64/mem.h:88 | An already aligned address below the last page moves up by exactly one page, so it is not a fixed point. |
| `Address.Pml4Index` | hexahedron/include/kernel/arch/x86_64/mem.h:91 | The index is below 512 and, shifted back by 39, equals bits 39 to 47 of the address. |
| `Address.PdptIndex` | hexahedron/include/kernel/arch/x86_64/mem.h:92 | The index is below 512 and, shifted back by 30, equals bits 30 to 38 of the address. |
| `Address.PageDirIndex` | hexahedron/include/kernel/arch/x86_64/mem.h:93 | The index is below 512 and, shifted back by 21, equals bits 21 to 29 of the address. |
| `Address.PageTableIndex` | hexahedron/include/kernel/arch/x86_64/mem.h:94 | The index is below 512 and, shifted back by 12, equals bits 12 to 20 of the address. |
| `Address.IndicesRecompose` | hexahedron/include/kernel/arch/x86_64/mem.h:91-94 | Every address below 2^48 is the OR of its four shifted indices and its page offset. |
| `Address.IndicesDetermineAddress` | hexahedron/include/kernel/arch/x86_64/mem.h:91-94 | Two addresses with the same top 16 bits, the same four indices and the same page offset are equal. |
| `Address.AlignDownKeepsIndices` | hexahedron/include/kernel/arch/x86_64/mem.h:89-94 | Rounding down does not change any of the four indices. |
| `Address.HeapPageIndices` | hexahedron/include/kernel/arch/x86_64/mem.h:75-94 | The second heap page, 0xFFFFFF0000001000, has PML4 index 510, PDPT index 0, page-directory index 0 and page-table index 1. |
| `Address.IsCanonical` | hexahedron/include/kernel/arch/x86_64/mem.h:99 | The macro holds exactly when bits 48 to 63 are all zero or all one. |
| `Address.CanonicalExamples` | hexahedron/include/kernel/arch/x86_64/mem.h:99 | The macro accepts 0 and 0xFFFFFFFF80000000, and rejects 0x0001000000000000 and 0x8000000000000000. |
| `Address.SignExtend48` | hexahedron/include/kernel/arch/x86_64/mem.h:99 | The result keeps the low 48 bits of the input, and its bits 47 to 63 are all equal. |
| `Address.IsCanonicalSdm` | hexahedron/include/kernel/arch/x86_64/mem.h:99 | Architecturally canonical: the address equals the sign extension of its low 48 bits. |
| `Address.SdmCanonicalPassesMacro` | hexahedron/include/kernel/arch/x86_64/mem.h:99 | Every architecturally canonical address passes the macro. |
| `Address.MacroAcceptsBit47Mismatch` | hexahedron/include/kernel/arch/x86_64/mem.h:99 | The macro accepts a non-canonical address exactly when bits 48 to 63 are uniform and bit 47 differs from them. |
| `Address.MacroAcceptsNonCanonical` | hexahedron/include/kernel/arch/x86_64/mem.h:99 | 0x0000800000000000 and 0xFFFF000000000000 pass the macro but are not canonical. |
| `Regions.OrderedEndsBefore` | hexahedron/include/kernel/arch/x86_64/mem.h:71-84 | In a list of regions that are ordered pairwise by neighbour, every region ends at or before any later one starts. |
| `Regions.OrderedDisjoint` | hexahedron/include/kernel/arch/x86_64/mem.h:71-84 | Two distinct regions of such a list contain no common address. |
| `Regions.SizedRegionsOrdered` | hexahedron/include/kernel/arch/x86_64/mem.h:71-84 | The usermode stack, DMA, physical-memory map, MMIO and driver regions are in address order, each ending at or before the next begins. |
| `Regions.SizedRegionsDisjoint` | hexahedron/include/kernel/arch/x86_64/mem.h:71-84 | No address lies in two of the sized regions. |
| `Regions.UserspaceBoundaries` | hexahedron/include/kernel/arch/x86_64/mem.h:68-81 | The usermode stack base lies inside user space (not below its start and below its end). The stack ends exactly at the end of user space, which is the DMA base. |
| `Regions.NeighboursDoNotOverlap` | hexahedron/include/kernel/arch/x86_64/mem.h:72-84 | Each of these regions starts no earlier than the previous one ends: DMA then the framebuffer, the physical-memory map then MMIO, MMIO then the driver region. The heap base also lies below the physical-memory map. |
| `Regions.DriverRegionEnd` | hexahedron/include/kernel/arch/x86_64/mem.h:78-84 | The driver region ends at 0xFFFFFFFF80000000. |
| `Regions.BasesAlignedAndCanonical` | hexahedron/include/kernel/arch/x86_64/mem.h:68-78 | Every base constant is page-aligned and passes both the macro and the architectural canonical test. Each base is either below 2^47 or at least 2^64 - 2^47. |
| `Regions.SizedRegionsInCanonicalHalves` | hexahedron/include/kernel/arch/x86_64/mem.h:71-84 | Each sized region lies entirely below 2^47 or entirely at or above 2^64 - 2^47. |
| `Regions.LowerHalfCanonical` | hexahedron/include/kernel/arch/x86_64/mem.h:99 | Every address below 2^47 is canonical, so every address of a lower-half region is. |
| `Regions.UpperHalfCanonical` | hexahedron/include/kernel/arch/x86_64/mem.h:99 | Every address at or above 2^64 - 2^47 is canonical, so every address of an upper-half region is. |

## Left out

- `mem_init` (hexahedron/include/kernel/arch/x86_64/mem.h:123) is only declared in the header. Its body, and the page-table walker, mapping, unmapping, TLB invalidation and locking, are not part of this model.
- `userspace/lib/celestial/event.c` is not part of this model. It is IPC client code that sends requests, blocks on responses and dispatches through function pointers.
- `libpolyhedron/include/assert.h` is not part of this model. It is a macro that forwards to an external failure handler.
- The memory-map comments at mem.h:58-66 are not modelled; the `#define` values are. The comments differ from the constants by one hex digit in several places and list a kernel-code region that has no constant.
- The heap has no size constant, so no upper bound is given for it other than the physical-memory map base.
- `PAGE_SIZE_LARGE` is modelled as a constant only; no operation uses it.
- Bit-field placement assumes GCC's x86_64 ABI: fields are packed from bit 0 upward in declaration order. Another compiler could lay out the struct differently.
- `PageEntry.GetFrame`: the shift in `MEM_GET_FRAME` is taken as 64-bit. Under GCC a `uint64_t` bit-field narrower than `int` promotes to `int`, so `address << 12` overflows a signed 32-bit `int` once the frame reaches 2^31. The model returns the full 40-bit frame instead.
- `Address.AlignUp`: the macro does not parenthesise its argument, so it is modelled as a function of an already evaluated address. Operator-precedence effects at call sites are not modelled.
- The hardware meaning of the reserved bits relative to MAXPHYADDR, and of the other flag bits, is not modelled. Only their positions are.
- `PAGE_PRESENT`, `PAGE_COW` and `PAGE_FRAME_RAW` take a non-null `Page`. In C they dereference the pointer without a check, so NULL is undefined behaviour there.

## Findings

| source | as written | input that shows it | evidently intended | confidence | as-written member | corrected member |
|---|---|---|---|---|---|---|
| hexahedron/include/kernel/arch/x86_64/mem.h:99 | `MEM_IS_CANONICAL` accepts an address when bits 48 to 63 are all zero or all one, and never looks at bit 47 | 0x0000800000000000 (also 0xFFFF000000000000) passes the macro but is not canonical | canonical per section 3.3.7.1 of the Intel SDM, Volume 1: bits 48 to 63 equal bit 47 (`Address.MacroAcceptsBit47Mismatch` states the exact gap) | medium, not executed | `Address.IsCanonical`, shown by `Address.MacroAcceptsNonCanonical` | `Address.IsCanonicalSdm` |
