/**
 The address arithmetic of include/memory.h: four-level table indices and
 table entries that pack flag bits into page-aligned physical addresses.
 */
module Address {
  import opened Words

  const PAGE_SIZE: nat := 4096
  const PTRS_PER_PAGE: nat := 512
  const TWO_52: nat := 0x10_0000_0000_0000
  const TWO_48: nat := 0x1_0000_0000_0000
  const TWO_36: nat := 0x10_0000_0000

  /** Page frame numbers: physical addresses have 52 bits. */
  const FRAMES: nat := 0x100_0000_0000

  type Pfn = p: nat | p < FRAMES

  /** Table levels: PT is 1, PDT is 2, PDPT is 3 and PML4T is 4. */
  const PT: nat := 1
  const PML4T: nat := 4

  type Level = l: nat | PT <= l <= PML4T witness 1

  function Shift(level: Level): nat {
    match level case 1 => 12 case 2 => 21 case 3 => 30 case _ => 39
  }

  /** The bytes of guest-physical space covered by one entry of a table of this level. */
  function Span(level: Level): nat {
    match level
    case 1 => 0x1000
    case 2 => 0x20_0000
    case 3 => 0x4000_0000
    case _ => 0x80_0000_0000
  }

  /** The guest page number: the bits of an address that the walk looks at. */
  function Gpn(addr: Word): nat {
    addr / PAGE_SIZE % TWO_36
  }

  function TableIndex(addr: Word, level: Level): (i: nat)
    ensures i < PTRS_PER_PAGE
  {
    addr / Span(level) % PTRS_PER_PAGE
  }

  lemma SpanIsPow2(level: Level)
    ensures Span(level) == Pow2(Shift(level))
  {
    Pow2Values();
  }

  /** The index is the shift-and-mask expression of the source. */
  lemma TableIndexIsShiftAndMask(addr: Word, level: Level)
    ensures TableIndex(addr, level) == And(Shr(addr, Shift(level)), PTRS_PER_PAGE - 1)
  {
    SpanIsPow2(level);
    Pow2Values();
    ShiftIsDiv(addr, Shift(level));
    AndLowMask(Shr(addr, Shift(level)), 9);
    ShiftIsDiv(Shr(addr, Shift(level)), 9);
  }

  /** The four indices, put back in place, give the guest page number. */
  lemma IndicesRebuildGpn(addr: Word)
    ensures Gpn(addr) == TableIndex(addr, 1) + 0x200 * TableIndex(addr, 2)
                         + 0x4_0000 * TableIndex(addr, 3) + 0x800_0000 * TableIndex(addr, 4)
  {
    var p := addr / 0x1000;
    SplitDivMod(addr, 0x1000, 0x200);
    SplitDivMod(addr, 0x20_0000, 0x200);
    SplitDivMod(addr, 0x4000_0000, 0x200);
    SplitDivMod(p, 0x200, 0x800_0000);
    SplitDivMod(p / 0x200, 0x200, 0x4_0000);
    SplitDivMod(p / 0x200 / 0x200, 0x200, 0x200);
  }

  /** The four indices and the page offset give the low 48 bits. */
  lemma IndicesRebuildAddress(addr: Word)
    ensures addr % TWO_48 == addr % PAGE_SIZE + Span(1) * TableIndex(addr, 1) + Span(2) * TableIndex(addr, 2)
                             + Span(3) * TableIndex(addr, 3) + Span(4) * TableIndex(addr, 4)
  {
    IndicesRebuildGpn(addr);
    SplitDivMod(addr, PAGE_SIZE, TWO_36);
    ScaleDigits(Gpn(addr), TableIndex(addr, 1), TableIndex(addr, 2), TableIndex(addr, 3), TableIndex(addr, 4));
  }

  lemma ScaleDigits(g: nat, a: nat, b: nat, c: nat, d: nat)
    requires g == a + 0x200 * b + 0x4_0000 * c + 0x800_0000 * d
    ensures PAGE_SIZE * g == Span(1) * a + Span(2) * b + Span(3) * c + Span(4) * d
  {
  }

  /** Two addresses take the same indices at every level exactly when bits 12 to 47 agree. */
  lemma SameIndicesIffSameGpn(a: Word, b: Word)
    ensures (forall level: Level :: TableIndex(a, level) == TableIndex(b, level)) <==> Gpn(a) == Gpn(b)
  {
    IndicesRebuildGpn(a);
    IndicesRebuildGpn(b);
    if forall level: Level :: TableIndex(a, level) == TableIndex(b, level) {
      assert TableIndex(a, 1) == TableIndex(b, 1) && TableIndex(a, 2) == TableIndex(b, 2);
      assert TableIndex(a, 3) == TableIndex(b, 3) && TableIndex(a, 4) == TableIndex(b, 4);
    }
    if Gpn(a) == Gpn(b) {
      DigitsUnique([TableIndex(a, 1), TableIndex(a, 2), TableIndex(a, 3), TableIndex(a, 4)],
                   [TableIndex(b, 1), TableIndex(b, 2), TableIndex(b, 3), TableIndex(b, 4)]);
      forall level: Level
        ensures TableIndex(a, level) == TableIndex(b, level)
      {
        assert level == 1 || level == 2 || level == 3 || level == 4;
      }
    }
  }

  /** Four base-512 digits are determined by the number they write. */
  lemma DigitsUnique(a: seq<nat>, b: seq<nat>)
    requires |a| == |b| == 4
    requires forall k :: 0 <= k < 4 ==> a[k] < 512 && b[k] < 512
    requires a[0] + 0x200 * a[1] + 0x4_0000 * a[2] + 0x800_0000 * a[3]
          == b[0] + 0x200 * b[1] + 0x4_0000 * b[2] + 0x800_0000 * b[3]
    ensures a[0] == b[0] && a[1] == b[1] && a[2] == b[2] && a[3] == b[3]
  {
    LastDigit(a[0], a[1] + 0x200 * a[2] + 0x4_0000 * a[3], b[0], b[1] + 0x200 * b[2] + 0x4_0000 * b[3]);
    LastDigit(a[1], a[2] + 0x200 * a[3], b[1], b[2] + 0x200 * b[3]);
    LastDigit(a[2], a[3], b[2], b[3]);
  }

  lemma LastDigit(x: nat, p: nat, y: nat, q: nat)
    requires x < 512 && y < 512 && x + 0x200 * p == y + 0x200 * q
    ensures x == y && p == q
  {
  }

  // Table entries.

  const PAGE_PRESENT: nat := 1
  const PAGE_RW: nat := 2
  const PAGE_USER: nat := 4

  function Present(e: Word): bool { e % 2 == 1 }
  function Writable(e: Word): bool { e / 2 % 2 == 1 }
  function User(e: Word): bool { e / 4 % 2 == 1 }

  /** The frame that `yakvm_vmm_page` finds in an entry or in ncr3. */
  function EntryPfn(e: Word): Pfn {
    e % TWO_52 / PAGE_SIZE
  }

  /** A present, writable user entry for a frame. */
  function PackEntry(p: Pfn): Word {
    p * PAGE_SIZE + 7
  }

  /** Clearing the present bit. */
  function ClearPresent(e: Word): Word {
    e - e % 2
  }

  /** `page_to_phys(page) | PRESENT | RW | USER` adds the flags. */
  lemma PackEntryIsOr(p: Pfn)
    ensures PackEntry(p) == Or(Or(Or(p * PAGE_SIZE, PAGE_PRESENT), PAGE_RW), PAGE_USER)
  {
    var y := p * 512;
    OrFlag(4 * y);
    OrFlag(2 * y);
    OrFlag(y);
    OrAbove(4 * y, 1);
    OrAbove(2 * y, 1);
    OrAbove(4 * y + 1, 2);
  }

  /** `(pa & PHYS_ADDR_MASK) & PAGE_MASK` is the address of the entry's frame. */
  lemma EntryPfnIsMask(e: Word)
    ensures EntryPfn(e) * PAGE_SIZE == And(And(e, TWO_52 - 1), TWO_64 - PAGE_SIZE)
  {
    Pow2Values();
    AndLowMask(e, 52);
    ShiftIsDiv(e, 52);
    AndHighMask(e % TWO_52, 64, 12);
    ShiftIsDiv(e % TWO_52, 12);
  }

  lemma FlagsAreBits(e: Word)
    ensures Present(e) <==> And(e, PAGE_PRESENT) != 0
    ensures Writable(e) <==> And(e, PAGE_RW) != 0
    ensures User(e) <==> And(e, PAGE_USER) != 0
    ensures ClearPresent(e) == And(e, TWO_64 - 1 - PAGE_PRESENT)
  {
    Pow2Values();
    AndBit(e, 0);
    AndBit(e, 1);
    AndBit(e, 2);
    ShiftIsDiv(e, 1);
    ShiftIsDiv(e, 2);
    AndHighMask(e, 64, 1);
  }

  /** Packing and unpacking: the frame comes back, with all three flags set. */
  lemma UnpackEntry(p: Pfn)
    ensures EntryPfn(PackEntry(p)) == p && PackEntry(p) / PAGE_SIZE == p
    ensures Present(PackEntry(p)) && Writable(PackEntry(p)) && User(PackEntry(p))
  {
    var y := p * 512;
    DivModUnique(8 * y + 7, 2, 4 * y + 3, 1);
    DivModUnique(8 * y + 7, 4, 2 * y + 1, 3);
    DivModUnique(4 * y + 3, 2, 2 * y + 1, 1);
    DivModUnique(2 * y + 1, 2, y, 1);
    DivModUnique(8 * y + 7, PAGE_SIZE, p, 7);
    DivModUnique(8 * y + 7, TWO_52, 0, 8 * y + 7);
  }
}
