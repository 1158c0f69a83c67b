/**
 The entry points of the driver, as methods over physical memory, are steps of the transition
 system of module Isolation; so what is proved there of every run holds of this code.
 */
module DriverSteps {
  import opened Words
  import opened Address
  import opened PageTable
  import T = NptCreation
  import opened NestedPaging
  import opened VcpuCreation
  import opened VmObjects
  import opened Isolation
  import L = Lifecycle
  import M = GuestMemory

  /** YAKVM_CREATE_VM (driver/vm.c:186-220): a new VM, or what its failure leaves behind. */
  method NewVm(mem: PhysicalMemory, mmio: Word, ghost w: World, ghost i: VmId, ghost limit: U32)
    returns (r: VmResult, ghost e: Event, ghost w': World)
    requires w.h == mem.pages && i !in w.vms
    modifies mem
    ensures Step(w, e, w', mmio, limit) && w'.h == mem.pages
    ensures r.Created? ==> e == Event.NewVm(i, r.vm.vmm.table) && r.vm.Valid()
    ensures r.NoMemory? ==> e.VmFails?
  {
    ghost var left;
    r, left := CreateVm(mem, mmio);
    if r.Created? {
      e := Event.NewVm(i, r.vm.vmm.table);
      w' := w.(h := mem.pages, vms := w.vms[i := Vm(L.Init(), r.vm.vmm.table, map[], map[], map[])]);
    } else {
      e := VmFails(left);
      w' := w.(h := mem.pages, leaked := w.leaked + Rest(left));
    }
  }

  /** `yakvm_create_vcpu` by thread t (driver/cpu.c:405-502), unless the processor has no identifier left. */
  method NewVcpu(cpu: CpuDriver, ncr3: Word, pio: U16, limit: U32, ghost w: World, ghost i: VmId, ghost t: L.Tid,
                 ghost v: L.VcpuId, ghost mmio: Word)
    returns (r: VcpuResult, ghost e: Event, ghost w': World)
    requires Inv(w, mmio, limit) && w.h == cpu.mem.pages && w.counter == cpu.asid
    requires i in w.vms && L.Enabled(w.vms[i].life, L.Create(t, v)) && ncr3 == w.vms[i].table.root * PAGE_SIZE
    modifies cpu`asid, cpu.mem
    ensures r.Panicked? <==> cpu.asid == limit
    ensures !r.Panicked? ==> Step(w, e, w', mmio, limit) && w'.h == cpu.mem.pages && w'.counter == cpu.asid
    ensures r.Built? ==> e == Event.CreateVcpu(i, t, v, r.vcpu)
    ensures r.NoMemory? ==> e == Life(i, L.CreateFails(t))
  {
    hide Inv, Step, VcpuTaken, InterceptsOnly;
    CounterBelow(w, mmio, limit);
    r := cpu.CreateVcpu(ncr3, limit, pio);
    e, w' := Life(i, L.CreateFails(t)), w;
    if r.Built? {
      e, w' := VcpuAdded(w, i, t, v, r.vcpu, cpu.mem.pages, mmio, limit);
    } else if r.NoMemory? {
      w' := w.(vms := Lived(w, i, L.CreateFails(t)));
      NoVcpu(w, i, t, mmio, limit);
    }
  }

  lemma {:induction false} VcpuAdded(w: World, i: VmId, t: L.Tid, v: L.VcpuId, c: VcpuMemory, h': Heap, mmio: Word,
                                     limit: U32)
    returns (e: Event, w': World)
    requires i in w.vms && L.Enabled(w.vms[i].life, L.Create(t, v)) && w.counter + 1 < limit
    requires VcpuTaken(w.h, h', c, w.vms[i].table.root * PAGE_SIZE, w.counter + 1)
    ensures e == Event.CreateVcpu(i, t, v, c) && Step(w, e, w', mmio, limit)
    ensures w'.h == h' && w'.counter == w.counter + 1
  {
    e := Event.CreateVcpu(i, t, v, c);
    var life := L.Next(w.vms[i].life, L.Create(t, v));
    w' := w.(h := h', counter := w.counter + 1,
             vms := w.vms[i := WithVcpu(w.vms[i], life, v, c, w.counter + 1)]);
  }

  lemma {:induction false} NoVcpu(w: World, i: VmId, t: L.Tid, mmio: Word, limit: U32)
    requires i in w.vms && L.Enabled(w.vms[i].life, L.CreateFails(t))
    ensures Step(w, Life(i, L.CreateFails(t)), w.(vms := Lived(w, i, L.CreateFails(t))), mmio, limit)
  {
  }

  lemma CounterBelow(w: World, mmio: Word, limit: U32)
    requires Inv(w, mmio, limit)
    ensures 1 <= w.counter < limit
  {
  }

  /** YAKVM_MMAP_PAGE (driver/vm.c:98-109), unless it asks for the MMIO page. */
  method MmapPage(vmm: Vmm, gpa: Word, ghost w: World, ghost i: VmId, ghost mmio: Word, ghost limit: U32)
    returns (page: T.Outcome, ghost w': World)
    requires Inv(w, mmio, limit) && w.h == vmm.mem.pages && i in w.vms && w.vms[i].life.file
    requires vmm.table == w.vms[i].table && EntryPfn(vmm.ncr3) == vmm.table.root
    modifies vmm`table, vmm.mem`pages, vmm.mem`calls
    ensures page.Panicked? <==> Gpn(gpa) == Gpn(mmio)
    ensures !page.Panicked? ==>
              && Step(w, MemoryEvent(i, M.MmapPage(gpa)), w', mmio, limit)
              && w'.h == vmm.mem.pages && i in w'.vms && w'.vms[i].table == vmm.table
  {
    hide Inv, Step, Tree, T.Created;
    OpenTable(w, i, mmio, limit);
    page := vmm.NptCreate(gpa, false);
    OnlyMmioPanics(w.h, w.vms[i].table, gpa, mmio, vmm.mem.pages, vmm.table, page);
    w' := Grown(w, i, vmm.mem.pages, vmm.table, w.vms[i].user);
    if !page.Panicked? {
      PageMapped(w, i, gpa, page, w', mmio, limit);
    }
  }

  /** VM i with this table and these pages in its userspace mapping. */
  function Grown(w: World, i: VmId, h: Heap, t: Npt, user: map<nat, Pfn>): World
    requires i in w.vms
  {
    w.(h := h, vms := w.vms[i := w.vms[i].(table := t, user := user)])
  }

  lemma {:induction false} PageMapped(w: World, i: VmId, gpa: Word, page: T.Outcome, w': World, mmio: Word, limit: U32)
    requires i in w.vms && i in w'.vms && w.vms[i].life.file && !page.Panicked?
    requires w' == Grown(w, i, w'.h, w'.vms[i].table, w.vms[i].user)
    requires T.Created(w.h, w.vms[i].table, gpa, false, w'.h, w'.vms[i].table, page)
    ensures Step(w, MemoryEvent(i, M.MmapPage(gpa)), w', mmio, limit)
  {
    hide T.Created;
    assert M.Step(Memory(w.h, w.vms[i]), M.MmapPage(gpa), Memory(w'.h, w'.vms[i]));
  }

  /** A fault on the userspace mapping (driver/vm.c:145-161), unless it is on the MMIO page. */
  method UserFault(vmm: Vmm, offset: Word, ghost w: World, ghost i: VmId, ghost mmio: Word, ghost limit: U32)
    returns (page: T.Outcome, ghost w': World)
    requires Inv(w, mmio, limit) && w.h == vmm.mem.pages && i in w.vms && w.vms[i].life.file
    requires vmm.table == w.vms[i].table && EntryPfn(vmm.ncr3) == vmm.table.root
    modifies vmm`table, vmm.mem`pages, vmm.mem`calls
    ensures page.Panicked? <==> Gpn(offset) == Gpn(mmio)
    ensures !page.Panicked? ==>
              && Step(w, MemoryEvent(i, M.UserFault(offset)), w', mmio, limit)
              && w'.h == vmm.mem.pages && i in w'.vms && w'.vms[i].table == vmm.table
    ensures page.Mapped? ==> w'.vms[i].user == w.vms[i].user[offset / PAGE_SIZE := page.page]
  {
    hide Inv, Step, Tree, T.Created;
    OpenTable(w, i, mmio, limit);
    page := vmm.NptCreate(offset, false);
    OnlyMmioPanics(w.h, w.vms[i].table, offset, mmio, vmm.mem.pages, vmm.table, page);
    w' := Grown(w, i, vmm.mem.pages, vmm.table, Shown(w.vms[i].user, offset, page));
    if !page.Panicked? {
      FaultHandled(w, i, offset, page, w', mmio, limit);
    }
  }

  function Shown(user: map<nat, Pfn>, offset: Word, page: T.Outcome): map<nat, Pfn> {
    if page.Mapped? then user[offset / PAGE_SIZE := page.page] else user
  }

  lemma {:induction false} FaultHandled(w: World, i: VmId, offset: Word, page: T.Outcome, w': World, mmio: Word,
                                        limit: U32)
    requires i in w.vms && i in w'.vms && w.vms[i].life.file && !page.Panicked?
    requires w' == Grown(w, i, w'.h, w'.vms[i].table, Shown(w.vms[i].user, offset, page))
    requires T.Created(w.h, w.vms[i].table, offset, false, w'.h, w'.vms[i].table, page)
    ensures Step(w, MemoryEvent(i, M.UserFault(offset)), w', mmio, limit)
  {
    hide T.Created;
    assert M.Step(Memory(w.h, w.vms[i]), M.UserFault(offset), Memory(w'.h, w'.vms[i]));
  }

  /** While the vm file is open its table is whole, and hides the MMIO page only. */
  lemma {:induction false} OpenTable(w: World, i: VmId, mmio: Word, limit: U32)
    requires Inv(w, mmio, limit) && i in w.vms && w.vms[i].life.file
    ensures Tree(w.h, w.vms[i].table) && w.vms[i].table.hidden == {LeafPath(mmio)}
  {
  }

  lemma {:induction false} OnlyMmioPanics(h: Heap, t: Npt, gpa: Word, mmio: Word, h': Heap, t': Npt, r: T.Outcome)
    requires Tree(h, t) && t.hidden == {LeafPath(mmio)} && T.Created(h, t, gpa, false, h', t', r)
    ensures r.Panicked? <==> Gpn(gpa) == Gpn(mmio)
  {
    T.PanicsIffHidden(h, t, gpa, false, h', t', r);
    SameLeafIffSameGpn(gpa, mmio);
  }

  /** `yakvm_destroy_vcpu` on the error paths of thread t (driver/vm.c:91-92). */
  method DropVcpu(cpu: CpuDriver, vcpu: VcpuMemory, ghost w: World, ghost i: VmId, ghost t: L.Tid, ghost mmio: Word,
                  ghost limit: U32)
    returns (ghost w': World)
    requires Inv(w, mmio, limit) && w.h == cpu.mem.pages && vcpu.handle in cpu.mem.objects
    requires i in w.vms && L.Enabled(w.vms[i].life, L.DestroyVcpu(t)) && w.vms[i].life.threads[t].v in w.vms[i].vcpus
    requires vcpu == w.vms[i].vcpus[w.vms[i].life.threads[t].v]
    modifies cpu.mem
    ensures Step(w, DestroyVcpu(i, t), w', mmio, limit) && w'.h == cpu.mem.pages
  {
    hide Inv, Step, FiveBlocks;
    DoomedPages(w, i, t, w.vms[i].life.threads[t], mmio, limit);
    cpu.DestroyVcpu(vcpu);
    w' := w.(h := cpu.mem.pages, vms := Lived(w, i, L.DestroyVcpu(t)));
    VcpuGone(w, i, t, w', mmio, limit);
  }

  lemma {:induction false} VcpuGone(w: World, i: VmId, t: L.Tid, w': World, mmio: Word, limit: U32)
    requires i in w.vms && L.Enabled(w.vms[i].life, L.DestroyVcpu(t)) && w.vms[i].life.threads[t].v in w.vms[i].vcpus
    requires w' == w.(h := w.h - Frames(w.vms[i].vcpus[w.vms[i].life.threads[t].v]),
                      vms := Lived(w, i, L.DestroyVcpu(t)))
    ensures Step(w, DestroyVcpu(i, t), w', mmio, limit)
  {
  }

  lemma {:induction false} DoomedPages(w: World, i: VmId, t: L.Tid, pc: L.Pc, mmio: Word, limit: U32)
    requires Inv(w, mmio, limit) && i in w.vms && t in w.vms[i].life.threads && w.vms[i].life.threads[t] == pc
    requires pc.Rejected? || pc.Dropped?
    ensures pc.v in w.vms[i].vcpus
    ensures FiveBlocks(w.vms[i].vcpus[pc.v]) && Frames(w.vms[i].vcpus[pc.v]) <= w.h.Keys
  {
    hide Owned, VmsOk, VmOk;
    OneVmOk(w, i, mmio);
    DoomedIsLive(w.h, w.vms[i], t, mmio);
    LiveBlocks(w.h, w.vms[i], pc.v, mmio);
    VmPagesInHeap(w, i);
    assert VcpuPages(w.vms[i], pc.v) == Frames(w.vms[i].vcpus[pc.v]);
  }

  lemma {:induction false} LiveBlocks(h: Heap, vm: Vm, v: L.VcpuId, mmio: Word)
    requires VmOk(h, vm, mmio) && v in vm.vcpus && v !in vm.life.destroyed
    ensures FiveBlocks(vm.vcpus[v])
  {
  }

  /** `yakvm_put_vm` when the count reaches zero: `yakvm_destroy_vm` (driver/vm.c:22-38). */
  method DropVm(vm: VmResources, cpu: CpuDriver, ghost w: World, ghost i: VmId, ghost mmio: Word, ghost limit: U32)
    returns (ghost w': World)
    requires vm.Valid() && cpu.mem == vm.vmm.mem && w.h == cpu.mem.pages
    requires i in w.vms && L.Enabled(w.vms[i].life, L.DestroyVm)
    requires vm.vmm.table == w.vms[i].table && vm.VcpuFrames() == InstalledFrames(w.vms[i])
    modifies cpu.mem
    ensures Step(w, DestroyVm(i), w', mmio, limit) && w'.h == cpu.mem.pages
  {
    vm.Destroy(cpu);
    w' := w.(h := cpu.mem.pages, vms := Lived(w, i, L.DestroyVm));
  }
}
