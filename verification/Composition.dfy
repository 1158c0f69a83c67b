/**
 How the parts meet: in every state that Isolation reaches, a guest that acts through its
 nested table gives the host of WorldSwitch back; and an entry of the guest in Emulation is a
 run in the histories of VcpuRegisters.
 */
module Composition {
  import opened Words
  import opened Address
  import opened PageTable
  import opened VcpuRegisters
  import opened IdealMachine
  import opened Emulation
  import W = WorldSwitch
  import I = Isolation
  import L = Lifecycle
  import C = VcpuCreation

  // Isolation confines the guest.

  /** The guest pages of VM i. */
  ghost function LeafPages(w: I.World, i: I.VmId): set<Pfn>
    requires i in w.vms
  {
    set q | q in w.vms[i].table.nodes && Depth(q) == PML4T :: w.vms[i].table.nodes[q]
  }

  /** The physical address of a page; WorldSwitch keeps its memory and frames by address. */
  function AddressOf(p: Pfn): int {
    p * PAGE_SIZE
  }

  function PageOf(a: int): int {
    a / PAGE_SIZE
  }

  function InPage(p: Pfn, o: nat): int {
    AddressOf(p) + o
  }

  ghost function OwnedAddresses(w: I.World, i: I.VmId): set<int>
    requires i in w.vms
  {
    set p, o: nat | p in LeafPages(w, i) && o < PAGE_SIZE :: InPage(p, o)
  }

  /** Stores of vcpus of VM i, one after the other. */
  ghost predicate GuestRun(ws: seq<I.World>, es: seq<I.Event>, i: I.VmId, mmio: Word, limit: U32) {
    I.Run(ws, es, mmio, limit) && forall k :: 0 <= k < |es| ==> es[k].GuestWrite? && es[k].i == i
  }

  /** The page of this address has the same contents in both worlds. */
  predicate PageKept(w: I.World, w': I.World, a: int) {
    PageOf(a) in w.h ==> PageOf(a) in w'.h && w'.h[PageOf(a)] == w.h[PageOf(a)]
  }

  /**
   The guest changes memory only by stores that the hardware makes for vcpus of VM i, and does
   not write VM_HSAVE_PA.  This is assumed of the guest: the driver does not intercept WRMSR or
   VMSAVE, which could do otherwise.
   */
  ghost predicate ActsThrough(guest: W.Guest, w: I.World, i: I.VmId, mmio: Word, limit: U32) {
    forall g: W.GuestState :: ActsFrom(g, guest(g), w, i, mmio, limit)
  }

  ghost predicate ActsFrom(g: W.GuestState, out: W.GuestState, w: I.World, i: I.VmId, mmio: Word, limit: U32) {
    && out.hsavePa == g.hsavePa
    && exists ws, es :: GuestRun(ws, es, i, mmio, limit) && ws[0] == w && ActsAs(g, out, w, ws[|es|])
  }

  ghost predicate ActsAs(g: W.GuestState, out: W.GuestState, w: I.World, w': I.World) {
    forall a: int :: PageKept(w, w', a) ==>
          W.Read(out.mem, a) == W.Read(g.mem, a) && W.SameFrame(out.frames, g.frames, a)
  }

  /** Page x, if it is there, stays as it is. */
  predicate Stays(w: I.World, w': I.World, x: Pfn) {
    x in w.h ==> x in w'.h && w'.h[x] == w.h[x]
  }

  lemma {:induction false} StoresStayInLeaves(ws: seq<I.World>, es: seq<I.Event>, i: I.VmId, mmio: Word, limit: U32,
                                              x: Pfn)
    requires GuestRun(ws, es, i, mmio, limit) && I.Inv(ws[0], mmio, limit) && i in ws[0].vms
    requires x !in LeafPages(ws[0], i)
    ensures Stays(ws[0], ws[|es|], x)
  {
    forall k | 0 <= k < |es|
      ensures Stays(ws[k], ws[k + 1], x)
    {
      SameVms(ws, es, i, mmio, limit, k);
      I.RunKeepsInv(ws, es, mmio, limit, k);
      OneStore(ws[k], es[k], ws[k + 1], mmio, limit, x);
    }
    StaysChain(ws, |es|, x);
  }

  lemma {:induction false} StaysChain(ws: seq<I.World>, k: nat, x: Pfn)
    requires k < |ws| && forall n :: 0 <= n < k ==> Stays(ws[n], ws[n + 1], x)
    ensures Stays(ws[0], ws[k], x)
  {
    if k > 0 {
      StaysChain(ws, k - 1, x);
      assert Stays(ws[k - 1], ws[k - 1 + 1], x);
    }
  }

  lemma {:induction false} SameVms(ws: seq<I.World>, es: seq<I.Event>, i: I.VmId, mmio: Word, limit: U32, k: nat)
    requires GuestRun(ws, es, i, mmio, limit) && k < |ws|
    ensures ws[k].vms == ws[0].vms
  {
    if k > 0 {
      SameVms(ws, es, i, mmio, limit, k - 1);
      assert es[k - 1].GuestWrite? && I.Step(ws[k - 1], es[k - 1], ws[k], mmio, limit);
    }
  }

  lemma {:induction false} OneStore(w: I.World, e: I.Event, w': I.World, mmio: Word, limit: U32, x: Pfn)
    requires I.Inv(w, mmio, limit) && I.Step(w, e, w', mmio, limit) && e.GuestWrite? && e.i in w.vms
    requires x !in LeafPages(w, e.i)
    ensures Stays(w, w', x)
  {
    I.StoreStaysInside(w, e, w', mmio, limit);
    assert w.vms[e.i].table.nodes[LeafPath(e.gpa)] in LeafPages(w, e.i);
  }

  /** Of a guest that acts so, isolation gives what WorldSwitch needs. */
  lemma {:induction false} GuestIsConfined(guest: W.Guest, w: I.World, i: I.VmId, mmio: Word, limit: U32)
    requires I.Inv(w, mmio, limit) && i in w.vms && ActsThrough(guest, w, i, mmio, limit)
    ensures W.Confined(guest, OwnedAddresses(w, i))
  {
    forall g: W.GuestState
      ensures guest(g).hsavePa == g.hsavePa
    {
      assert ActsFrom(g, guest(g), w, i, mmio, limit);
    }
    forall g: W.GuestState, a: int | a !in OwnedAddresses(w, i)
      ensures W.Read(guest(g).mem, a) == W.Read(g.mem, a) && W.SameFrame(guest(g).frames, g.frames, a)
    {
      assert ActsFrom(g, guest(g), w, i, mmio, limit);
      var ws, es :| GuestRun(ws, es, i, mmio, limit) && ws[0] == w && ActsAs(g, guest(g), w, ws[|es|]);
      if PageOf(a) in w.h {
        OwnedIffLeaf(w, i, a);
        StoresStayInLeaves(ws, es, i, mmio, limit, PageOf(a));
      }
    }
  }

  lemma {:induction false} OwnedIffLeaf(w: I.World, i: I.VmId, a: int)
    requires i in w.vms
    ensures a in OwnedAddresses(w, i) <==> PageOf(a) in LeafPages(w, i)
  {
    if PageOf(a) in LeafPages(w, i) {
      assert a == InPage(PageOf(a), a % PAGE_SIZE);
    }
    if a in OwnedAddresses(w, i) {
      var p, o: nat :| p in LeafPages(w, i) && o < PAGE_SIZE && a == InPage(p, o);
      PageOfAddress(p, o);
    }
  }

  lemma PageOfAddress(p: Pfn, o: nat)
    requires o < PAGE_SIZE
    ensures PageOf(InPage(p, o)) == p
  {
  }

  /** A page of any other holder is not among what the guest owns. */
  lemma {:induction false} HeldIsApart(w: I.World, i: I.VmId, k: I.Holder, a: int)
    requires I.Owned(w) && I.Alive(w, i) && k != I.TableOf(i) && PageOf(a) in I.PagesOf(w, k)
    ensures a !in OwnedAddresses(w, i)
  {
    I.Apart(w, k, I.TableOf(i), PageOf(a));
    assert LeafPages(w, i) <= I.PagesOf(w, I.TableOf(i));
    OwnedIffLeaf(w, i, a);
  }

  /** No address in a page of any live vcpu, its VMCB and save area included, is among what the guest owns. */
  lemma {:induction false} VcpuPagesAreApart(w: I.World, i: I.VmId, j: I.VmId, v: L.VcpuId, p: Pfn, o: nat)
    requires I.Owned(w) && I.Alive(w, i) && I.AliveVcpu(w, j, v) && p in C.Frames(w.vms[j].vcpus[v]) && o < PAGE_SIZE
    ensures InPage(p, o) !in OwnedAddresses(w, i)
  {
    PageOfAddress(p, o);
    HeldIsApart(w, i, I.VcpuOf(j, v), InPage(p, o));
  }

  /** Nor is an address in a page of the rest of the kernel. */
  lemma {:induction false} KernelPagesAreApart(w: I.World, i: I.VmId, a: int)
    requires I.Owned(w) && I.Alive(w, i) && PageOf(a) in w.kernel
    ensures a !in OwnedAddresses(w, i)
  {
    HeldIsApart(w, i, I.Kernel, a);
  }

  // A run of a guest, in the whole driver.

  /** These addresses are in pages of the rest of the kernel, where kmalloc and the stacks are. */
  ghost predicate InKernel(w: I.World, lo: int, hi: int) {
    forall a: int :: W.In(a, lo, hi) ==> PageOf(a) in w.kernel
  }

  /** The contexts and the stack words in use are the kernel's, and apart from each other. */
  ghost predicate KernelLayout(w: I.World, gctx: int, hctx: int, sp: int) {
    && InKernel(w, gctx, gctx + 120) && InKernel(w, hctx, hctx + 120) && InKernel(w, sp - 32, sp)
    && W.Apart(gctx, gctx + 120, hctx, hctx + 120)
    && W.Apart(gctx, gctx + 120, sp - 32, sp) && W.Apart(hctx, hctx + 120, sp - 32, sp)
  }

  /** The VMCBs, the save area, the contexts and the stack are out of the guest's reach. */
  lemma {:induction false} OutOfReach(w: I.World, i: I.VmId, v: L.VcpuId, mmio: Word, limit: U32,
                                      gctx: int, hctx: int, sp: int)
    requires I.Inv(w, mmio, limit) && i in w.vms && v in w.vms[i].life.running && KernelLayout(w, gctx, hctx, sp)
    ensures v in w.vms[i].vcpus
    ensures var c, owned := w.vms[i].vcpus[v], OwnedAddresses(w, i);
            && AddressOf(c.gvmcb) !in owned && AddressOf(c.hvmcb) !in owned && AddressOf(c.hsave) !in owned
            && c.gvmcb !in {c.hvmcb, c.hsave} && c.hvmcb != c.hsave
            && forall a :: a in owned ==> !W.In(a, gctx, gctx + 120) && !W.In(a, hctx, hctx + 120)
                                          && !W.In(a, sp - 32, sp)
  {
    I.OpenVcpu(w.h, w.vms[i], v, mmio);
    var c := w.vms[i].vcpus[v];
    VcpuPagesAreApart(w, i, i, v, c.gvmcb, 0);
    VcpuPagesAreApart(w, i, i, v, c.hvmcb, 0);
    VcpuPagesAreApart(w, i, i, v, c.hsave, 0);
    forall a | a in OwnedAddresses(w, i)
      ensures PageOf(a) !in w.kernel
    {
      if PageOf(a) in w.kernel {
        KernelPagesAreApart(w, i, a);
      }
    }
  }

  /**
   At every state of every run of the driver from boot, YAKVM_RUN for an open vcpu brings the
   host back after the call with its registers, stack and processor state, whatever the guest
   does with the memory that its nested table gives it.
   */
  lemma {:induction false} RunIsSafe(ws: seq<I.World>, es: seq<I.Event>, mmio: Word, limit: U32, k: nat,
                                     i: I.VmId, v: L.VcpuId, m: W.Machine, gctx: int, hctx: int, ra: int,
                                     guest: W.Guest)
    requires limit > 1 && I.Run(ws, es, mmio, limit) && ws[0] == I.Boot(ws[0].h) && k < |ws|
    requires i in ws[k].vms && v in ws[k].vms[i].life.running && v in ws[k].vms[i].vcpus
    requires KernelLayout(ws[k], gctx, hctx, W.Get(m.regs, W.RSP)) && ActsThrough(guest, ws[k], i, mmio, limit)
    requires var c := ws[k].vms[i].vcpus[v];
             W.HasVmcb(m.frames, AddressOf(c.gvmcb)) && W.HasVmcb(m.frames, AddressOf(c.hvmcb))
    ensures var c := ws[k].vms[i].vcpus[v];
            var code := W.Around(W.VcpuRunCode(), AddressOf(c.hsave), gctx, hctx, AddressOf(c.gvmcb),
                                 AddressOf(c.hvmcb), ra);
            && W.Exec(m, code, guest).Some?
            && var f := W.Exec(m, code, guest).value;
            && (forall r: W.Reg :: r !in {W.RAX, W.RDX, W.RDI, W.RSI} ==> W.Get(f.regs, r) == W.Get(m.regs, r))
            && f.rip == ra && f.core == m.core && f.extra == m.extra && f.gif
  {
    hide W.Exec, W.VcpuRunCode, W.Around, W.HostBack, W.Confined, I.Inv, I.Run, ActsThrough;
    var w := ws[k];
    var c := w.vms[i].vcpus[v];
    I.BootInv(ws[0].h, mmio, limit);
    I.RunKeepsInv(ws, es, mmio, limit, k);
    OutOfReach(w, i, v, mmio, limit, gctx, hctx, W.Get(m.regs, W.RSP));
    GuestIsConfined(guest, w, i, mmio, limit);
    W.VcpuRunRestoresHost(m, AddressOf(c.hsave), gctx, hctx, AddressOf(c.gvmcb), AddressOf(c.hvmcb), ra,
                          OwnedAddresses(w, i), guest);
  }

  // An entry is a run.

  function Regs(v: Vcpu): W.Regs {
    map[W.RAX := RegOf(v, W.RAX), W.RBX := RegOf(v, W.RBX), W.RCX := RegOf(v, W.RCX), W.RDX := RegOf(v, W.RDX),
        W.RDI := RegOf(v, W.RDI), W.RSI := RegOf(v, W.RSI), W.RBP := RegOf(v, W.RBP), W.RSP := RegOf(v, W.RSP),
        W.R8 := RegOf(v, W.R8), W.R9 := RegOf(v, W.R9), W.R10 := RegOf(v, W.R10), W.R11 := RegOf(v, W.R11),
        W.R12 := RegOf(v, W.R12), W.R13 := RegOf(v, W.R13), W.R14 := RegOf(v, W.R14), W.R15 := RegOf(v, W.R15)]
  }

  function StateOf(v: Vcpu): W.GuestState {
    W.GuestState(Regs(v), v.vmcb.rip, v.vmcb.core, v.vmcb.extra, map[], map[], 0, v.vmcb.exit)
  }

  /** The entry that the emulator makes is one run in the sense of the vcpu's histories. */
  lemma {:induction false} EntryIsRun(b: Board, v: Vcpu, h: Heap, root: Pfn)
    ensures var v' := GuestRuns(b, v, h, root).cpu; VcpuStep(v, RunOp(StateOf(v), StateOf(v')), v')
  {
    var v' := GuestRuns(b, v, h, root).cpu;
    IdentityKept(b, v, h, root);
    forall r: W.Reg
      ensures W.Get(Regs(v), r) == RegOf(v, r) && W.Get(Regs(v'), r) == RegOf(v', r)
    {
      AllRegs(v, r);
      AllRegs(v', r);
    }
  }

  lemma {:induction false} AllRegs(v: Vcpu, r: W.Reg)
    ensures W.Get(Regs(v), r) == RegOf(v, r)
  {
  }

  lemma {:induction false} IdentityKept(b: Board, v: Vcpu, h: Heap, root: Pfn)
    ensures var v' := GuestRuns(b, v, h, root).cpu; v'.vmcb.nestedCr3 == v.vmcb.nestedCr3 && v'.vmcb.asid == v.vmcb.asid
  {
    hide Decode;
    DecodedBound(b, v, View(h, root));
  }

  lemma {:induction false} DecodedBound(b: Board, v: Vcpu, view: map<nat, Page>)
    ensures var i := Decode(b, v, view);
            i.Other? && i.native.Runs? ==>
              i.native.cpu.vmcb.nestedCr3 == v.vmcb.nestedCr3 && i.native.cpu.vmcb.asid == v.vmcb.asid
  {
    hide ByteAt, Linear, Clean;
  }
}
