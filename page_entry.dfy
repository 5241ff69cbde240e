/** The x86_64 page-table entry `page_t` of the Hexahedron kernel.

    In C the entry is a union: a bit-field struct `bits` laid over a raw
    `uint64_t data`. Here the struct view is the datatype `Bits`, the raw
    view is a `bv64`, and `Encode`/`Decode` say how the two views share the
    same 64 bits: GCC on x86_64 packs bit-fields from the least significant
    bit upwards in declaration order. */
module PageEntry {
  import opened Address

  /** The raw `data` view of a `page_t`. */
  type Entry = bv64

  /** The `bits` view of a `page_t`: one member per declared bit-field, each
      as wide as its declaration. */
  datatype Bits = Bits(
    present: bv1,        // present in memory
    rw: bv1,             // writable
    usermode: bv1,       // accessible from user mode
    writethrough: bv1,
    cacheDisable: bv1,
    accessed: bv1,
    dirty: bv1,
    size: bv1,           // large page; the PAT bit in a page-table entry
    global: bv1,
    available2: bv3,
    address: bv28,       // physical frame number
    reserved: bv12,
    cow: bv1,            // software copy-on-write marker
    available3: bv10,
    nx: bv1)             // no-execute

  // ---------------------------------------------------------------------
  // Layout
  // ---------------------------------------------------------------------

  /** The bit-fields of `page_t`, named. */
  datatype Field =
    | Present | Rw | Usermode | Writethrough | CacheDisable | Accessed | Dirty
    | Size | Global | Available2 | Address | Reserved | Cow | Available3 | Nx

  /** The struct's fields in the order they are declared. */
  const Declared: seq<Field> :=
    [Present, Rw, Usermode, Writethrough, CacheDisable, Accessed, Dirty,
     Size, Global, Available2, Address, Reserved, Cow, Available3, Nx]

  /** The declared width of each bit-field. */
  function Width(f: Field): nat
  {
    match f
    case Available2 => 3
    case Address => 28
    case Reserved => 12
    case Available3 => 10
    case _ => 1
  }

  /** The position of each field's least significant bit in `data`. */
  function Lo(f: Field): nat
  {
    match f
    case Present => 0
    case Rw => 1
    case Usermode => 2
    case Writethrough => 3
    case CacheDisable => 4
    case Accessed => 5
    case Dirty => 6
    case Size => 7
    case Global => 8
    case Available2 => 9
    case Address => 12
    case Reserved => 40
    case Cow => 52
    case Available3 => 53
    case Nx => 63
  }

  /** The bits of `data` a field occupies. */
  function Mask(f: Field): bv64
  {
    match f
    case Present => 0x1
    case Rw => 0x2
    case Usermode => 0x4
    case Writethrough => 0x8
    case CacheDisable => 0x10
    case Accessed => 0x20
    case Dirty => 0x40
    case Size => 0x80
    case Global => 0x100
    case Available2 => 0xE00
    case Address => 0x0000_00FF_FFFF_F000
    case Reserved => 0x000F_FF00_0000_0000
    case Cow => 0x0010_0000_0000_0000
    case Available3 => 0x7FE0_0000_0000_0000
    case Nx => 0x8000_0000_0000_0000
  }

  /** Number of bits taken by the first `k` declared fields: the position
      GCC gives field number `k` when it packs the struct LSB-first. */
  function PackedOffset(k: nat): nat
    requires k <= |Declared|
  {
    if k == 0 then 0 else PackedOffset(k - 1) + Width(Declared[k - 1])
  }

  /** The positions `Lo` are the ones that packing the declared widths in
      declaration order gives, and the widths fill 64 bits exactly. */
  lemma {:induction false} PackedLayout(k: nat)
    requires k <= |Declared|
    ensures k < |Declared| ==> PackedOffset(k) == Lo(Declared[k])
    ensures k == |Declared| ==> PackedOffset(k) == 64
  {
    if k > 0 {
      PackedLayout(k - 1);
    }
  }

  /** Each mask is `Width(f)` ones starting at bit `Lo(f)`: the masks are
      the packed layout. With the `Encode` contract and the `EncodePlaces*`
      lemmas this places every field at the position `PackedLayout` derives
      from the declared widths. */
  lemma MaskIsLayout(f: Field)
    ensures Mask(f) == (((1 as bv64) << Width(f)) - 1) << Lo(f)
  {
    match f
    case Present =>
    case Rw =>
    case Usermode =>
    case Writethrough =>
    case CacheDisable =>
    case Accessed =>
    case Dirty =>
    case Size =>
    case Global =>
    case Available2 =>
    case Address =>
    case Reserved =>
    case Cow =>
    case Available3 =>
    case Nx =>
  }

  // ---------------------------------------------------------------------
  // The union: two views of the same 64 bits
  // ---------------------------------------------------------------------

  /** Reading `data` after the struct view holds `b`: the 28-bit physical
      frame number lands in bits 12 to 39. */
  function Encode(b: Bits): (r: Entry)
    ensures r & Mask(Address) == (b.address as bv64) << 12
  {
    (b.present as bv64)
    | ((b.rw as bv64) << 1)
    | ((b.usermode as bv64) << 2)
    | ((b.writethrough as bv64) << 3)
    | ((b.cacheDisable as bv64) << 4)
    | ((b.accessed as bv64) << 5)
    | ((b.dirty as bv64) << 6)
    | ((b.size as bv64) << 7)
    | ((b.global as bv64) << 8)
    | ((b.available2 as bv64) << 9)
    | ((b.address as bv64) << 12)
    | ((b.reserved as bv64) << 40)
    | ((b.cow as bv64) << 52)
    | ((b.available3 as bv64) << 53)
    | ((b.nx as bv64) << 63)
  }

  /** Reading `bits` after `data` holds `e`. Writing the fields read back
      through `bits` restores `data`, so no raw value is lost by the struct
      view. */
  function Decode(e: Entry): (b: Bits)
    ensures Encode(b) == e
  {
    Bits(
      (e & 0x1) as bv1,
      ((e >> 1) & 0x1) as bv1,
      ((e >> 2) & 0x1) as bv1,
      ((e >> 3) & 0x1) as bv1,
      ((e >> 4) & 0x1) as bv1,
      ((e >> 5) & 0x1) as bv1,
      ((e >> 6) & 0x1) as bv1,
      ((e >> 7) & 0x1) as bv1,
      ((e >> 8) & 0x1) as bv1,
      ((e >> 9) & 0x7) as bv3,
      ((e >> 12) & 0xFFF_FFFF) as bv28,
      ((e >> 40) & 0xFFF) as bv12,
      ((e >> 52) & 0x1) as bv1,
      ((e >> 53) & 0x3FF) as bv10,
      (e >> 63) as bv1)
  }

  /** Writing the struct and reading it back gives the same fields. */
  lemma DecodeEncode(b: Bits)
    ensures Decode(Encode(b)) == b
  {
  }

  // Where each field lands in `data`. `Encode` states it for `address`;
  // together with `MaskIsLayout` these fix every field at `Lo(f)`, `Width(f)`
  // bits wide, and swapping two fields in `Encode` would break them.

  /** The nine one-bit flags each land at their own bit, 0 to 8. */
  lemma EncodePlacesFlags(b: Bits)
    ensures Encode(b) & Mask(Present) == b.present as bv64
    ensures Encode(b) & Mask(Rw) == (b.rw as bv64) << 1
    ensures Encode(b) & Mask(Usermode) == (b.usermode as bv64) << 2
    ensures Encode(b) & Mask(Writethrough) == (b.writethrough as bv64) << 3
    ensures Encode(b) & Mask(CacheDisable) == (b.cacheDisable as bv64) << 4
    ensures Encode(b) & Mask(Accessed) == (b.accessed as bv64) << 5
    ensures Encode(b) & Mask(Dirty) == (b.dirty as bv64) << 6
    ensures Encode(b) & Mask(Size) == (b.size as bv64) << 7
    ensures Encode(b) & Mask(Global) == (b.global as bv64) << 8
  {
  }

  /** `available2` occupies bits 9 to 11 of `data`. */
  lemma EncodePlacesAvailable2(b: Bits)
    ensures Encode(b) & Mask(Available2) == (b.available2 as bv64) << 9
  {
  }

  /** `reserved` occupies bits 40 to 51 of `data`. */
  lemma EncodePlacesReserved(b: Bits)
    ensures Encode(b) & Mask(Reserved) == (b.reserved as bv64) << 40
  {
  }

  /** `cow` occupies bit 52 of `data`. */
  lemma EncodePlacesCow(b: Bits)
    ensures Encode(b) & Mask(Cow) == (b.cow as bv64) << 52
  {
  }

  /** `available3` occupies bits 53 to 62 of `data`. */
  lemma EncodePlacesAvailable3(b: Bits)
    ensures Encode(b) & Mask(Available3) == (b.available3 as bv64) << 53
  {
  }

  /** `nx` occupies bit 63 of `data`. */
  lemma EncodePlacesNx(b: Bits)
    ensures Encode(b) & Mask(Nx) == (b.nx as bv64) << 63
  {
  }

  /** The bits of `data` owned by the fields in which `a` and `b` differ. */
  function ChangedMask(a: Bits, b: Bits): bv64
  {
    (if a.present == b.present then 0 else Mask(Present))
    | (if a.rw == b.rw then 0 else Mask(Rw))
    | (if a.usermode == b.usermode then 0 else Mask(Usermode))
    | (if a.writethrough == b.writethrough then 0 else Mask(Writethrough))
    | (if a.cacheDisable == b.cacheDisable then 0 else Mask(CacheDisable))
    | (if a.accessed == b.accessed then 0 else Mask(Accessed))
    | (if a.dirty == b.dirty then 0 else Mask(Dirty))
    | (if a.size == b.size then 0 else Mask(Size))
    | (if a.global == b.global then 0 else Mask(Global))
    | (if a.available2 == b.available2 then 0 else Mask(Available2))
    | (if a.address == b.address then 0 else Mask(Address))
    | (if a.reserved == b.reserved then 0 else Mask(Reserved))
    | (if a.cow == b.cow then 0 else Mask(Cow))
    | (if a.available3 == b.available3 then 0 else Mask(Available3))
    | (if a.nx == b.nx then 0 else Mask(Nx))
  }

  /** Assigning bit-fields through `bits` changes no bit of `data` outside
      the assigned fields' masks; in particular `b.(f := v)` differs from `b`
      in `data` only inside `Mask(f)`. */
  lemma WriteIsLocal(a: Bits, b: Bits)
    ensures (Encode(a) ^ Encode(b)) & !ChangedMask(a, b) == 0
  {
  }

  // ---------------------------------------------------------------------
  // Frames
  // ---------------------------------------------------------------------

  // 0x0000_00FF_FFFF_F000 below is `Mask(Address)`, 28 ones from bit 12
  // (`MaskIsLayout`): the bits of `data` that hold a physical frame address
  // in place, so frames are page-aligned and lie below 2^40.

  /** `MEM_GET_FRAME(page)`: the 28-bit address field shifted back up by
      `MEM_PAGE_SHIFT`, i.e. `data` with every flag, available, reserved,
      copy-on-write and NX bit cleared. */
  function GetFrame(e: Entry): (frame: bv64)
    ensures frame == e & 0x0000_00FF_FFFF_F000
  {
    (Decode(e).address as bv64) << 12
  }

  /** `MEM_SET_FRAME(page, frame)` on the value of an entry: the entry after
      `frame >> MEM_PAGE_SHIFT` is assigned to the 28-bit address field,
      which keeps only its low 28 bits. */
  function WithFrame(e: Entry, frame: bv64): (r: Entry)
    ensures r == (e & !0x0000_00FF_FFFF_F000) | (frame & 0x0000_00FF_FFFF_F000)
  {
    Encode(Decode(e).(address := ((frame >> 12) & 0xFFF_FFFF) as bv28))
  }

  /** Storing a frame leaves every other field of the struct view as it was:
      flags, available bits, reserved bits, the copy-on-write bit and NX. */
  lemma WithFrameKeepsFields(e: Entry, frame: bv64)
    ensures Decode(WithFrame(e, frame)).(address := 0) == Decode(e).(address := 0)
  {
  }

  /** Reading back a stored frame gives it exactly when it is page-aligned
      and below 2^40; otherwise its low 12 bits and its bits above 39 are
      lost. */
  lemma FrameRoundTrip(e: Entry, frame: bv64)
    ensures GetFrame(WithFrame(e, frame)) == frame
            <==> PageAligned(frame) && frame < 0x100_0000_0000
  {
    assert GetFrame(WithFrame(e, frame)) == frame & 0x0000_00FF_FFFF_F000;
    FrameMaskKeeps(frame);
  }

  /** The address-field mask keeps a value whole exactly when the value is
      page-aligned and below 2^40. */
  lemma FrameMaskKeeps(frame: bv64)
    ensures frame & 0x0000_00FF_FFFF_F000 == frame
            <==> PageAligned(frame) && frame < 0x100_0000_0000
  {
  }

  /** A frame read from any entry is page-aligned and below 2^40, so storing
      it again changes nothing. */
  lemma GetFrameStoresBack(e: Entry)
    ensures PageAligned(GetFrame(e)) && GetFrame(e) < 0x100_0000_0000
    ensures WithFrame(e, GetFrame(e)) == e
  {
  }

  // ---------------------------------------------------------------------
  // A page_t in memory
  // ---------------------------------------------------------------------

  /** The storage of one `page_t`, reached through a `page_t *`. */
  class Page {
    var data: Entry

    constructor (raw: Entry)
      ensures data == raw
    {
      data := raw;
    }

    /** `MEM_SET_FRAME(page, frame)`: assigns the address field in place. */
    method SetFrame(frame: bv64)
      modifies this
      ensures data == WithFrame(old(data), frame)
      ensures GetFrame(data) == frame & 0x0000_00FF_FFFF_F000
    {
      data := WithFrame(data, frame);
    }
  }

  /** `PAGE_IS_PRESENT(pg)`: false for NULL, else bit 0. */
  function IsPresent(pg: Page?): (b: bool)
    reads pg
    ensures b <==> pg != null && pg.data & 0x1 != 0
  {
    pg != null && Decode(pg.data).present == 1
  }

  /** `PAGE_IS_WRITABLE(pg)`: false for NULL, else bit 1. */
  function IsWritable(pg: Page?): (b: bool)
    reads pg
    ensures b <==> pg != null && pg.data & 0x2 != 0
  {
    pg != null && Decode(pg.data).rw == 1
  }

  /** `PAGE_IS_USERMODE(pg)`: false for NULL, else bit 2. */
  function IsUsermode(pg: Page?): (b: bool)
    reads pg
    ensures b <==> pg != null && pg.data & 0x4 != 0
  {
    pg != null && Decode(pg.data).usermode == 1
  }

  /** `PAGE_IS_COW(pg)`: false for NULL, else bit 52. */
  function IsCow(pg: Page?): (b: bool)
    reads pg
    ensures b <==> pg != null && pg.data & 0x0010_0000_0000_0000 != 0
  {
    pg != null && Decode(pg.data).cow == 1
  }

  /** `PAGE_IS_DIRTY(pg)`: false for NULL, else bit 6. */
  function IsDirty(pg: Page?): (b: bool)
    reads pg
    ensures b <==> pg != null && pg.data & 0x40 != 0
  {
    pg != null && Decode(pg.data).dirty == 1
  }

  /** `PAGE_PRESENT(pg)`: the present bit of a non-NULL page. */
  function PresentBit(pg: Page): (v: bv1)
    reads pg
    ensures v == 1 <==> pg.data & 0x1 != 0
  {
    Decode(pg.data).present
  }

  /** `PAGE_COW(pg)`: the copy-on-write bit of a non-NULL page. */
  function CowBit(pg: Page): (v: bv1)
    reads pg
    ensures v == 1 <==> pg.data & 0x0010_0000_0000_0000 != 0
  {
    Decode(pg.data).cow
  }

  /** `PAGE_FRAME_RAW(pg)`: the 28-bit address field, not shifted back up. */
  function FrameRaw(pg: Page): (v: bv28)
    reads pg
    ensures (v as bv64) << 12 == GetFrame(pg.data)
  {
    Decode(pg.data).address
  }

  /** Storing a frame through `MEM_SET_FRAME` changes none of the `PAGE_IS_*`
      answers for that page. */
  lemma SetFrameKeepsPredicates(pg: Page, e: Entry, frame: bv64)
    requires pg.data == WithFrame(e, frame)
    ensures IsPresent(pg) == (e & 0x1 != 0)
    ensures IsWritable(pg) == (e & 0x2 != 0)
    ensures IsUsermode(pg) == (e & 0x4 != 0)
    ensures IsCow(pg) == (e & 0x0010_0000_0000_0000 != 0)
    ensures IsDirty(pg) == (e & 0x40 != 0)
  {
    WithFrameKeepsFields(e, frame);
  }
}
