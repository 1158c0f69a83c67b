/**
 driver/cpu.c: the memory of a vcpu, taken in six allocations any of which may fail, and
 given back when it is destroyed; and the counter that hands out address space identifiers.
 */
module VcpuCreation {
  import opened Words
  import opened Address
  import opened PageTable
  import opened NestedPaging

  /** The I/O permissions map has 12 KiB: order 2. */
  const IOPM_ORDER: nat := 2

  /** The words of a VMCB that hold the ASID (byte 0x58) and nCR3 (byte 0xb0). */
  const ASID_WORD: nat := 11
  const NCR3_WORD: nat := 22

  /** `struct vcpu`: the object and the pages it points to. */
  datatype VcpuMemory = VcpuMemory(handle: nat, gvmcb: Pfn, hvmcb: Pfn, hsave: Pfn, state: Pfn, iopm: Pfn)

  function Singles(v: VcpuMemory): set<Pfn> {
    {v.gvmcb, v.hvmcb, v.hsave, v.state}
  }

  function Frames(v: VcpuMemory): set<Pfn> {
    Singles(v) + Block(v.iopm, IOPM_ORDER)
  }

  predicate FiveBlocks(v: VcpuMemory) {
    && v.gvmcb !in {v.hvmcb, v.hsave, v.state} && v.hvmcb !in {v.hsave, v.state} && v.hsave != v.state
    && v.iopm + Pow2(IOPM_ORDER) <= FRAMES && Singles(v) !! Block(v.iopm, IOPM_ORDER)
  }

  /** The heap h' is h with the pages of this vcpu taken and its VMCB initialised. */
  ghost predicate VcpuTaken(h: Heap, h': Heap, v: VcpuMemory, ncr3: Word, asid: nat) {
    && FiveBlocks(v) && Frames(v) !! h.Keys
    && h'.Keys == h.Keys + Frames(v)
    && (forall x :: x in h ==> h'[x] == h[x])
    && h'[v.gvmcb][NCR3_WORD] == ncr3 && h'[v.gvmcb][ASID_WORD] == asid
  }

  /** Creating a vcpu and destroying it gives back the very memory there was. */
  lemma CreateThenDestroy(h: Heap, h': Heap, v: VcpuMemory, ncr3: Word, asid: nat)
    requires VcpuTaken(h, h', v, ncr3, asid)
    ensures h' - Frames(v) == h
  {
    assert (h' - Frames(v)).Keys == h.Keys;
  }

  function Got(p: Option<Pfn>): set<Pfn> {
    if p.Some? then {p.value} else {}
  }

  lemma TakeOne(h: Heap, s: set<Pfn>, p: Pfn)
    ensures Taking(h, s)[p := ZeroPage()] == Taking(h, s + {p})
  {
  }

  lemma TakeMore(h: Heap, s: set<Pfn>, b: set<Pfn>)
    ensures Taking(Taking(h, s), b) == Taking(h, s + b)
  {
  }

  lemma FreeOne(h: Heap, s: set<Pfn>, p: Pfn)
    requires p !in h
    ensures Taking(h, s) - {p} == Taking(h, s - {p})
  {
  }

  lemma TakeNothing(h: Heap)
    ensures Taking(h, {}) == h
  {
  }

  // The I/O permissions map (section 15.10.1 of the AMD64 manual, Volume 2): one bit a port.

  const PORTS_PER_PAGE: nat := 32768

  predicate Bit(w: nat, k: nat) {
    w / Pow2(k) % 2 == 1
  }

  function PortPage(v: VcpuMemory, p: U16): Pfn
    requires v.iopm + Pow2(IOPM_ORDER) <= FRAMES
  {
    Pow2Values();
    Nth(v.iopm, p / PORTS_PER_PAGE)
  }

  function PortWord(p: U16): (w: nat)
    ensures w < PTRS_PER_PAGE
  {
    p % PORTS_PER_PAGE / 64
  }

  /** In the map as a whole, the bit of port p is bit p. */
  lemma PortIsBit(v: VcpuMemory, p: U16)
    requires v.iopm + Pow2(IOPM_ORDER) <= FRAMES
    ensures (PortPage(v, p) - v.iopm) * 8 * PAGE_SIZE + PortWord(p) * 64 + p % 64 == p
  {
  }

  /** `get_order(12 KiB)`, and the fields of the VMCB at bytes 0x58 and 0xb0. */
  lemma VmcbAndMap()
    ensures Pow2(IOPM_ORDER - 1) * PAGE_SIZE < 12 * 1024 <= Pow2(IOPM_ORDER) * PAGE_SIZE
    ensures 8 * ASID_WORD == 0x58 && 8 * NCR3_WORD == 0xb0
  {
    Pow2Values();
  }

  /** Of all ports, exactly this one is intercepted. */
  ghost predicate InterceptsOnly(h: Heap, v: VcpuMemory, pio: U16)
    requires FiveBlocks(v)
  {
    forall p: U16 :: PortPage(v, p) in h && (Bit(h[PortPage(v, p)][PortWord(p)], p % 64) <==> p == pio)
  }

  lemma {:induction false} Pow2Grows(a: nat, b: nat)
    requires a < b
    ensures 2 * Pow2(a) <= Pow2(b)
  {
    if a + 1 < b {
      Pow2Grows(a, b - 1);
    }
  }

  /** A power of two has one bit. */
  lemma {:induction false} OneBit(a: nat, k: nat)
    ensures Bit(Pow2(a), k) <==> a == k
  {
    if a < k {
      Pow2Grows(a, k);
      DivModUnique(Pow2(a), Pow2(k), 0, Pow2(a));
    } else {
      Pow2Add(k, a - k);
      DivModUnique(Pow2(a), Pow2(k), Pow2(a - k), 0);
    }
  }

  lemma PortBitFits(pio: U16)
    ensures Pow2(pio % 64) < TWO_64
  {
    Pow2Values();
    Pow2Grows(pio % 64, 64);
  }

  lemma NoBit(k: nat)
    ensures !Bit(0, k)
  {
    DivModUnique(0, Pow2(k), 0, 0);
  }

  lemma SamePort(p: U16, q: U16)
    requires p / PORTS_PER_PAGE == q / PORTS_PER_PAGE && PortWord(p) == PortWord(q) && p % 64 == q % 64
    ensures p == q
  {
  }

  lemma PortsInMap(v: VcpuMemory, p: U16)
    requires FiveBlocks(v)
    ensures PortPage(v, p) in Block(v.iopm, IOPM_ORDER)
  {
    Pow2Values();
  }

  /** Setting the bit of one port in a zeroed map. */
  lemma {:induction false} SetPort(h: Heap, v: VcpuMemory, pio: U16, w: Word)
    requires FiveBlocks(v) && w == Pow2(pio % 64)
    requires forall x :: x in Block(v.iopm, IOPM_ORDER) ==> x in h && h[x] == ZeroPage()
    ensures PortPage(v, pio) in h && InterceptsOnly(SetEntry(h, PortPage(v, pio), PortWord(pio), w), v, pio)
  {
    PortsInMap(v, pio);
    var h' := SetEntry(h, PortPage(v, pio), PortWord(pio), w);
    forall p: U16
      ensures PortPage(v, p) in h' && (Bit(h'[PortPage(v, p)][PortWord(p)], p % 64) <==> p == pio)
    {
      PortsInMap(v, p);
      if PortPage(v, p) == PortPage(v, pio) && PortWord(p) == PortWord(pio) {
        OneBit(pio % 64, p % 64);
        if p % 64 == pio % 64 {
          SamePort(p, pio);
        }
      } else {
        NoBit(p % 64);
      }
    }
  }

  /** The map does not care about other pages. */
  lemma {:induction false} MapKept(h: Heap, h': Heap, v: VcpuMemory, pio: U16)
    requires FiveBlocks(v) && InterceptsOnly(h, v, pio)
    requires forall x :: x in Block(v.iopm, IOPM_ORDER) && x in h ==> x in h' && h'[x] == h[x]
    ensures InterceptsOnly(h', v, pio)
  {
    forall p: U16
      ensures PortPage(v, p) in h' && (Bit(h'[PortPage(v, p)][PortWord(p)], p % 64) <==> p == pio)
    {
      PortsInMap(v, p);
    }
  }

  datatype VcpuResult = Built(vcpu: VcpuMemory) | NoMemory | Panicked

  // The counter.

  /** What a creation does to the counter, which `atomic_inc_return` increments in 32 bits. */
  predicate Counted(asid: U32, r: VcpuResult, asid': U32, limit: U32) {
    if r == NoMemory then asid' == asid
    else asid' == (asid + 1) % 0x1_0000_0000 && (r.Built? <==> asid' < limit)
  }

  /** The counter over a sequence of creations since the module was loaded; after a panic there are no more. */
  ghost predicate Creations(asids: seq<U32>, rs: seq<VcpuResult>, limit: U32) {
    && |asids| == |rs| + 1 && asids[0] == 1
    && (forall k :: 0 <= k < |rs| ==> Counted(asids[k], rs[k], asids[k + 1], limit))
    && (forall k :: 0 <= k < |rs| - 1 ==> rs[k] != Panicked)
  }

  lemma {:induction false} CounterGrows(asids: seq<U32>, rs: seq<VcpuResult>, limit: U32, j: nat, k: nat)
    requires Creations(asids, rs, limit) && j <= k < |rs|
    ensures 1 <= asids[j] <= asids[k] < 0xffff_ffff
    ensures j < k && rs[j] != NoMemory ==> asids[j] < asids[k]
    decreases k
  {
    if k > 0 {
      CounterGrows(asids, rs, limit, if j < k then j else k - 1, k - 1);
      assert Counted(asids[k - 1], rs[k - 1], asids[k], limit);
    }
  }

  /**
   Every creation that gets as far takes an identifier of its own, at least 2: the count never
   wraps, because the limit stops it first.
   */
  lemma {:induction false} IdentifiersDiffer(asids: seq<U32>, rs: seq<VcpuResult>, limit: U32, j: nat, k: nat)
    requires Creations(asids, rs, limit) && j < k < |rs| && rs[j] != NoMemory && rs[k] != NoMemory
    ensures 2 <= asids[j + 1] < asids[k + 1] && asids[j + 1] == asids[j] + 1
  {
    assert Counted(asids[j], rs[j], asids[j + 1], limit) && Counted(asids[k], rs[k], asids[k + 1], limit);
    CounterGrows(asids, rs, limit, j, k);
    CounterGrows(asids, rs, limit, j + 1, k);
  }

  class CpuDriver {
    const mem: PhysicalMemory
    var asid: U32

    /** Loading the module. */
    constructor (mem: PhysicalMemory)
      ensures this.mem == mem && asid == 1
    {
      this.mem, asid := mem, 1;
    }

    /**
     `yakvm_create_vcpu` (driver/cpu.c:405-502).  A failure leaves memory exactly as it
     was; the counter moves only when every allocation succeeded, and an identifier that the
     processor does not have halts the host.
     */
    method CreateVcpu(ncr3: Word, limit: U32, pio: U16) returns (r: VcpuResult)
      modifies this`asid, mem
      ensures r == NoMemory ==> mem.pages == old(mem.pages) && mem.objects == old(mem.objects) && asid == old(asid)
      ensures r.Built? ==> VcpuTaken(old(mem.pages), mem.pages, r.vcpu, ncr3, asid)
      ensures r.Built? ==> InterceptsOnly(mem.pages, r.vcpu, pio)
      ensures r.Built? ==> r.vcpu.handle !in old(mem.objects) && mem.objects == old(mem.objects) + {r.vcpu.handle}
      ensures Counted(old(asid), r, asid, limit)
      ensures r != NoMemory && old(asid) < 0xffff_ffff ==> asid == old(asid) + 1
    {
      var vcpu := mem.Kmalloc();
      if vcpu.None? {
        return NoMemory;
      }
      var got := TakePages(vcpu.value);
      if got.None? {
        mem.Kfree(vcpu.value);
        return NoMemory;
      }
      r := InitVmcb(got.value, ncr3, limit, pio);
    }

    /** The page allocations, and the labels free_state to free_gvmcb that undo them (driver/cpu.c:424-497). */
    method TakePages(vcpu: nat) returns (r: Option<VcpuMemory>)
      modifies mem`pages, mem`calls
      ensures r.None? ==> mem.pages == old(mem.pages)
      ensures r.Some? ==> r.value.handle == vcpu && FiveBlocks(r.value) && Frames(r.value) !! old(mem.pages).Keys
      ensures r.Some? ==> mem.pages == Taking(old(mem.pages), Frames(r.value))
    {
      ghost var h := mem.pages;
      TakeNothing(h);
      var gvmcb := TakeAfter(true, h, {});
      var hvmcb := TakeAfter(gvmcb.Some?, h, Got(gvmcb));
      var hsave := TakeAfter(hvmcb.Some?, h, Got(gvmcb) + Got(hvmcb));
      ghost var three := Got(gvmcb) + Got(hvmcb) + Got(hsave);
      var state := TakeAfter(hsave.Some?, h, three);
      if state.Some? {
        var iopm := mem.AllocPages(IOPM_ORDER);
        if iopm.Some? {
          var v := VcpuMemory(vcpu, gvmcb.value, hvmcb.value, hsave.value, state.value, iopm.value);
          assert Singles(v) == three + Got(state);
          TakeMore(h, Singles(v), Block(v.iopm, IOPM_ORDER));
          return Some(v);
        }
      }
      GiveBack(state, h, three + Got(state));
      assert three + Got(state) - Got(state) == three;
      GiveBack(hsave, h, three);
      assert three - Got(hsave) == Got(gvmcb) + Got(hvmcb);
      GiveBack(hvmcb, h, Got(gvmcb) + Got(hvmcb));
      assert Got(gvmcb) + Got(hvmcb) - Got(hvmcb) == Got(gvmcb);
      GiveBack(gvmcb, h, Got(gvmcb));
      assert Got(gvmcb) - Got(gvmcb) == {};
      r := None;
    }

    /** One allocation, if all before it succeeded. */
    method TakeAfter(before: bool, ghost h: Heap, ghost s: set<Pfn>) returns (p: Option<Pfn>)
      requires mem.pages == Taking(h, s)
      modifies mem`pages, mem`calls
      ensures mem.pages == Taking(h, s + Got(p))
      ensures Got(p) !! s && Got(p) !! h.Keys && (p.Some? ==> before)
    {
      p := None;
      if before {
        p := mem.AllocPage();
      }
      if p.Some? {
        TakeOne(h, s, p.value);
      } else {
        assert s + Got(p) == s;
      }
    }

    /** One label of the rollback. */
    method GiveBack(p: Option<Pfn>, ghost h: Heap, ghost s: set<Pfn>)
      requires mem.pages == Taking(h, s) && Got(p) <= s && Got(p) !! h.Keys
      modifies mem`pages
      ensures mem.pages == Taking(h, s - Got(p))
    {
      if p.Some? {
        FreeOne(h, s, p.value);
        mem.FreePage(p.value);
      } else {
        assert s - Got(p) == s;
      }
    }

    /** `yakvm_vcpu_init_vmcb`: the intercepted port, the table root and the ASID (driver/cpu.c:367-401). */
    method InitVmcb(v: VcpuMemory, ncr3: Word, limit: U32, pio: U16) returns (r: VcpuResult)
      requires FiveBlocks(v) && v.gvmcb in mem.pages
      requires forall x :: x in Block(v.iopm, IOPM_ORDER) ==> x in mem.pages && mem.pages[x] == ZeroPage()
      modifies this`asid, mem`pages
      ensures asid == (old(asid) + 1) % 0x1_0000_0000
      ensures r == if asid < limit then VcpuResult.Built(v) else Panicked
      ensures mem.pages.Keys == old(mem.pages).Keys
      ensures forall x :: x in mem.pages && x !in Frames(v) ==> mem.pages[x] == old(mem.pages)[x]
      ensures v.gvmcb in mem.pages && mem.pages[v.gvmcb][NCR3_WORD] == ncr3
      ensures v.gvmcb in mem.pages && mem.pages[v.gvmcb][ASID_WORD] == asid
      ensures InterceptsOnly(mem.pages, v, pio)
    {
      InterceptPort(v, pio);
      ghost var h := mem.pages;
      mem.WriteWord(v.gvmcb, NCR3_WORD, ncr3);
      asid := (asid + 1) % 0x1_0000_0000;
      mem.WriteWord(v.gvmcb, ASID_WORD, asid);
      MapKept(h, mem.pages, v, pio);
      r := if asid < limit then VcpuResult.Built(v) else Panicked;
    }

    /** `set_bit(YAKVM_PIO_HAWK, vcpu->iopm)` (driver/cpu.c:369). */
    method InterceptPort(v: VcpuMemory, pio: U16)
      requires FiveBlocks(v)
      requires forall x :: x in Block(v.iopm, IOPM_ORDER) ==> x in mem.pages && mem.pages[x] == ZeroPage()
      modifies mem`pages
      ensures InterceptsOnly(mem.pages, v, pio) && mem.pages.Keys == old(mem.pages).Keys
      ensures forall x :: x in mem.pages && x !in Block(v.iopm, IOPM_ORDER) ==> mem.pages[x] == old(mem.pages)[x]
    {
      PortBitFits(pio);
      SetPort(mem.pages, v, pio, Pow2(pio % 64));
      PortsInMap(v, pio);
      mem.WriteWord(PortPage(v, pio), PortWord(pio), Pow2(pio % 64));
    }

    /** `yakvm_destroy_vcpu` (driver/cpu.c:505-513). */
    method DestroyVcpu(v: VcpuMemory)
      requires FiveBlocks(v) && Frames(v) <= mem.pages.Keys && v.handle in mem.objects
      modifies mem
      ensures mem.pages == old(mem.pages) - Frames(v)
      ensures mem.objects == old(mem.objects) - {v.handle}
    {
      mem.FreePage(v.state);
      mem.FreePages(v.iopm, IOPM_ORDER);
      mem.FreePage(v.hsave);
      mem.FreePage(v.hvmcb);
      mem.FreePage(v.gvmcb);
      mem.Kfree(v.handle);
    }
  }
}
