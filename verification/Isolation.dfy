/**
 The whole driver: any number of virtual machines in one physical memory, each with its
 life cycle, its nested table and its vcpus, under every interleaving of ioctls, faults,
 closes, running guests and the rest of the kernel.

 The ownership invariant says that every allocated page has exactly one holder.
 */
module Isolation {
  import opened Words
  import opened Address
  import opened PageTable
  import opened NptCreation
  import N = NestedPaging
  import L = Lifecycle
  import M = GuestMemory
  import C = VcpuCreation

  type VmId = nat

  /** `struct vm`, and the vcpus ever created for it with their ASIDs. */
  datatype Vm = Vm(life: L.Vm, table: Npt, user: map<nat, Pfn>, vcpus: map<L.VcpuId, C.VcpuMemory>,
                   asids: map<L.VcpuId, nat>)

  /**
   Physical memory, every VM ever created, the ASID counter, the pages that failed VM
   creations left behind, and the pages of the rest of the kernel.
   */
  datatype World = World(h: Heap, vms: map<VmId, Vm>, counter: nat, leaked: set<Pfn>, kernel: set<Pfn>)

  datatype Holder = TableOf(i: VmId) | VcpuOf(i: VmId, v: L.VcpuId) | Leaked | Kernel

  predicate Alive(w: World, i: VmId) {
    i in w.vms && w.vms[i].life.freed == 0
  }

  predicate AliveVcpu(w: World, i: VmId, v: L.VcpuId) {
    i in w.vms && v in w.vms[i].vcpus && v !in w.vms[i].life.destroyed
  }

  function TablePages(vm: Vm): set<Pfn> {
    if vm.life.freed == 0 then vm.table.nodes.Values else {}
  }

  function VcpuPages(vm: Vm, v: L.VcpuId): set<Pfn> {
    if v in vm.vcpus && v !in vm.life.destroyed then C.Frames(vm.vcpus[v]) else {}
  }

  function PagesOf(w: World, k: Holder): set<Pfn> {
    match k
    case TableOf(i) => if i in w.vms then TablePages(w.vms[i]) else {}
    case VcpuOf(i, v) => if i in w.vms then VcpuPages(w.vms[i], v) else {}
    case Leaked => w.leaked
    case Kernel => w.kernel
  }

  ghost predicate Held(w: World, x: Pfn) {
    exists k :: x in PagesOf(w, k)
  }

  /** Every allocated page has exactly one holder, and nothing else is held. */
  ghost predicate Owned(w: World) {
    && (forall j, k, x :: x in PagesOf(w, j) && x in PagesOf(w, k) ==> j == k)
    && (forall x :: x in w.h <==> Held(w, x))
  }

  function Memory(h: Heap, vm: Vm): M.VmMemory {
    M.VmMemory(h, vm.table, vm.user)
  }

  /** The root that the hardware walks from when this vcpu runs: nCR3, read from its VMCB in memory. */
  function RootOf(h: Heap, c: C.VcpuMemory): Option<Pfn> {
    if c.gvmcb in h then Some(EntryPfn(h[c.gvmcb][C.NCR3_WORD])) else None
  }

  ghost predicate VcpuOk(h: Heap, vm: Vm, v: L.VcpuId)
    requires v in vm.vcpus && v in vm.asids
  {
    && C.FiveBlocks(vm.vcpus[v])
    && RootOf(h, vm.vcpus[v]) == Some(vm.table.root)
    && h[vm.vcpus[v].gvmcb][C.ASID_WORD] == vm.asids[v]
  }

  ghost predicate VcpusOk(h: Heap, vm: Vm) {
    && vm.vcpus.Keys == vm.asids.Keys == vm.life.created
    && forall v :: v in vm.vcpus && v !in vm.life.destroyed ==> VcpuOk(h, vm, v)
  }

  ghost predicate VmOk(h: Heap, vm: Vm, mmio: Word) {
    && L.Inv(vm.life)
    && (vm.life.freed == 0 ==> M.Inv(Memory(h, vm), mmio))
    && VcpusOk(h, vm)
  }

  /** The ASID of the v-th vcpu of the i-th VM, which may be long gone. */
  predicate HasAsid(w: World, i: VmId, v: L.VcpuId, a: nat) {
    i in w.vms && v in w.vms[i].asids && w.vms[i].asids[v] == a
  }

  ghost predicate AsidsUnique(w: World, limit: U32) {
    && 1 <= w.counter < limit
    && (forall i, v, a: nat :: HasAsid(w, i, v, a) ==> 2 <= a <= w.counter)
    && (forall i, v, j, u, a: nat :: HasAsid(w, i, v, a) && HasAsid(w, j, u, a) ==> i == j && v == u)
  }

  ghost predicate VmsOk(w: World, mmio: Word) {
    forall i :: i in w.vms ==> VmOk(w.h, w.vms[i], mmio)
  }

  ghost predicate Inv(w: World, mmio: Word, limit: U32) {
    && Owned(w)
    && VmsOk(w, mmio)
    && AsidsUnique(w, limit)
  }

  // Steps.

  datatype Event =
    | NewVm(i: VmId, table: Npt)
    | VmFails(left: Npt)
    | MemoryEvent(i: VmId, m: M.Event)
    | GuestWrite(i: VmId, v: L.VcpuId, gpa: Word, index: nat, value: Word)
    | VcpuWrite(i: VmId, v: L.VcpuId, x: Pfn, page: Page)
    | CreateVcpu(i: VmId, t: L.Tid, v: L.VcpuId, vcpu: C.VcpuMemory)
    | DestroyVcpu(i: VmId, t: L.Tid)
    | DestroyVm(i: VmId)
    | Life(i: VmId, l: L.Event)
    | KernelMoves(kernel: set<Pfn>)

  /** The VM that an event belongs to. */
  predicate Concerns(e: Event, i: VmId) {
    match e
    case VmFails(_) => false
    case KernelMoves(_) => false
    case _ => e.i == i
  }

  /** The contract of `yakvm_create_vmm` when it succeeds. */
  ghost predicate TableTaken(h: Heap, h': Heap, t: Npt, mmio: Word) {
    Tree(h', t) && t.hidden == {LeafPath(mmio)} && N.Taken(h, h', t.nodes.Values)
  }

  /** A file keeps the ioctl, the mapping or the running guest alive. */
  predicate MayAct(vm: Vm, m: M.Event) {
    match m
    case GuestStore(_, _, _) => false
    case MarkEntry(_, _, _) => vm.life.running != {}
    case _ => vm.life.file
  }

  ghost predicate NewVmStep(w: World, i: VmId, t: Npt, w': World, mmio: Word) {
    && i !in w.vms && TableTaken(w.h, w'.h, t, mmio)
    && w' == w.(h := w'.h, vms := w.vms[i := Vm(L.Init(), t, map[], map[], map[])])
  }

  ghost predicate VmFailsStep(w: World, left: Npt, w': World, mmio: Word) {
    var rest := N.Rest(left);
    && N.LeftBehind(left, mmio) && N.Taken(w.h, w'.h, rest)
    && w' == w.(h := w'.h, leaked := w.leaked + rest)
  }

  ghost predicate MemoryStep(w: World, i: VmId, m: M.Event, w': World) {
    && i in w.vms && i in w'.vms && MayAct(w.vms[i], m)
    && M.Step(Memory(w.h, w.vms[i]), m, Memory(w'.h, w'.vms[i]))
    && w' == w.(h := w'.h, vms := w.vms[i := w.vms[i].(table := w'.vms[i].table, user := w'.vms[i].user)])
  }

  /** A store of the running guest, through the walk from the nCR3 in its VMCB. */
  ghost predicate GuestWriteStep(w: World, i: VmId, v: L.VcpuId, gpa: Word, k: nat, value: Word, w': World) {
    && i in w.vms && v in w.vms[i].life.running && v in w.vms[i].vcpus && k < PTRS_PER_PAGE
    && var root := RootOf(w.h, w.vms[i].vcpus[v]);
    && root.Some?
    && var page := Walk(w.h, root.value, gpa);
    && page.Some? && page.value in w.h
    && w' == w.(h := SetEntry(w.h, page.value, k, value))
  }

  /** The driver, the processor and, through the shared page, userspace write to the pages of a vcpu. */
  ghost predicate VcpuWriteStep(w: World, i: VmId, v: L.VcpuId, x: Pfn, page: Page, w': World) {
    && AliveVcpu(w, i, v) && x in C.Frames(w.vms[i].vcpus[v]) && x in w.h
    && (x == w.vms[i].vcpus[v].gvmcb ==>
          page[C.NCR3_WORD] == w.h[x][C.NCR3_WORD] && page[C.ASID_WORD] == w.h[x][C.ASID_WORD])
    && w' == w.(h := w.h[x := page])
  }

  ghost predicate CreateVcpuStep(w: World, i: VmId, t: L.Tid, v: L.VcpuId, c: C.VcpuMemory, w': World, limit: U32) {
    && i in w.vms && L.Enabled(w.vms[i].life, L.Create(t, v)) && w.counter + 1 < limit
    && C.VcpuTaken(w.h, w'.h, c, w.vms[i].table.root * PAGE_SIZE, w.counter + 1)
    && w' == w.(h := w'.h, counter := w.counter + 1,
                vms := w.vms[i := WithVcpu(w.vms[i], L.Next(w.vms[i].life, L.Create(t, v)), v, c, w.counter + 1)])
  }

  ghost predicate DestroyVcpuStep(w: World, i: VmId, t: L.Tid, w': World) {
    && i in w.vms && L.Enabled(w.vms[i].life, L.DestroyVcpu(t)) && w.vms[i].life.threads[t].v in w.vms[i].vcpus
    && w' == w.(h := w.h - C.Frames(w.vms[i].vcpus[w.vms[i].life.threads[t].v]),
                vms := Lived(w, i, L.DestroyVcpu(t)))
  }

  ghost predicate DestroyVmStep(w: World, i: VmId, w': World) {
    && i in w.vms && L.Enabled(w.vms[i].life, L.DestroyVm)
    && w' == w.(h := w.h - w.vms[i].table.nodes.Values - InstalledFrames(w.vms[i]), vms := Lived(w, i, L.DestroyVm))
  }

  ghost predicate LifeStep(w: World, i: VmId, l: L.Event, w': World) {
    && i in w.vms && L.Enabled(w.vms[i].life, l) && !l.Create? && !l.DestroyVcpu? && !l.DestroyVm?
    && w' == w.(vms := Lived(w, i, l))
  }

  /** The rest of the kernel takes, frees and writes pages of its own. */
  ghost predicate KernelStep(w: World, kernel: set<Pfn>, w': World) {
    && kernel !! (w.h.Keys - w.kernel) && w'.h.Keys == w.h.Keys - w.kernel + kernel
    && (forall x :: x in w.h && x !in w.kernel ==> x in w'.h && w'.h[x] == w.h[x])
    && w' == w.(h := w'.h, kernel := kernel)
  }

  ghost predicate Step(w: World, e: Event, w': World, mmio: Word, limit: U32) {
    match e
    case NewVm(i, t) => NewVmStep(w, i, t, w', mmio)
    case VmFails(left) => VmFailsStep(w, left, w', mmio)
    case MemoryEvent(i, m) => MemoryStep(w, i, m, w')
    case GuestWrite(i, v, gpa, k, value) => GuestWriteStep(w, i, v, gpa, k, value, w')
    case VcpuWrite(i, v, x, page) => VcpuWriteStep(w, i, v, x, page, w')
    case CreateVcpu(i, t, v, c) => CreateVcpuStep(w, i, t, v, c, w', limit)
    case DestroyVcpu(i, t) => DestroyVcpuStep(w, i, t, w')
    case DestroyVm(i) => DestroyVmStep(w, i, w')
    case Life(i, l) => LifeStep(w, i, l, w')
    case KernelMoves(kernel) => KernelStep(w, kernel, w')
  }

  function WithVcpu(vm: Vm, life: L.Vm, v: L.VcpuId, c: C.VcpuMemory, asid: nat): Vm {
    vm.(life := life, vcpus := vm.vcpus[v := c], asids := vm.asids[v := asid])
  }

  function Lived(w: World, i: VmId, l: L.Event): map<VmId, Vm>
    requires i in w.vms && L.Enabled(w.vms[i].life, l)
  {
    w.vms[i := w.vms[i].(life := L.Next(w.vms[i].life, l))]
  }

  function InstalledFrames(vm: Vm): set<Pfn> {
    if vm.life.vcpu.Some? && vm.life.vcpu.value in vm.vcpus then C.Frames(vm.vcpus[vm.life.vcpu.value]) else {}
  }

  // Ownership.

  /** What each holder keeps when at most one of them gains or loses pages. */
  lemma {:induction false} Exchange(w: World, w': World, k: Holder)
    requires Owned(w)
    requires forall j :: j != k ==> PagesOf(w', j) == PagesOf(w, j)
    requires w'.h.Keys == w.h.Keys - PagesOf(w, k) + PagesOf(w', k)
    requires PagesOf(w', k) !! (w.h.Keys - PagesOf(w, k))
    ensures Owned(w')
  {
    forall i, j, x | x in PagesOf(w', i) && x in PagesOf(w', j)
      ensures i == j
    {
      assert i != k ==> Held(w, x);
      assert j != k ==> Held(w, x);
    }
    forall x
      ensures x in w'.h <==> Held(w', x)
    {
      if x in w'.h && x !in PagesOf(w', k) {
        var j :| x in PagesOf(w, j);
        assert x in PagesOf(w', j);
      }
      if j :| x in PagesOf(w', j) && j != k {
        assert x in PagesOf(w, j);
      }
    }
  }

  /** Two holders give back everything at once. */
  lemma {:induction false} GiveBack(w: World, w': World, k: Holder, l: Holder)
    requires Owned(w) && PagesOf(w', k) == {} && PagesOf(w', l) == {}
    requires forall j :: j != k && j != l ==> PagesOf(w', j) == PagesOf(w, j)
    requires w'.h.Keys == w.h.Keys - PagesOf(w, k) - PagesOf(w, l)
    ensures Owned(w')
  {
    forall x
      ensures x in w'.h <==> Held(w', x)
    {
      if x in w'.h {
        var j :| x in PagesOf(w, j);
        assert x in PagesOf(w', j);
      }
      if j :| x in PagesOf(w', j) {
        assert x in PagesOf(w, j);
      }
    }
  }

  // What one VM does to its own pages.

  /** The table gained pages that were free, and only its own pages changed. */
  ghost predicate OnlyGrows(s: M.VmMemory, s': M.VmMemory) {
    && s.t.nodes.Values <= s'.t.nodes.Values
    && s'.h.Keys == s.h.Keys + s'.t.nodes.Values
    && s'.t.nodes.Values !! (s.h.Keys - s.t.nodes.Values)
    && forall x :: x in s.h && x !in s.t.nodes.Values ==> x in s'.h && s'.h[x] == s.h[x]
  }

  lemma {:induction false} MemoryStepPages(s: M.VmMemory, m: M.Event, s': M.VmMemory, mmio: Word)
    requires M.Inv(s, mmio) && M.Step(s, m, s')
    ensures OnlyGrows(s, s')
  {
    match m
    case MmapPage(gpa) =>
      var r :| r != Panicked && Created(s.h, s.t, gpa, false, s'.h, s'.t, r);
      CreationPages(s, gpa, s', r);
    case UserFault(o) =>
      var r :| r != Panicked && Created(s.h, s.t, o, false, s'.h, s'.t, r)
               && s'.user == if r.Mapped? then s.user[o / PAGE_SIZE := r.page] else s.user;
      CreationPages(s, o, s', r);
    case GuestStore(gpa, i, w) =>
      M.WalkEndsInLeaf(s.h, s.t, gpa);
      WritePages(s, s', LeafPath(gpa), i, w);
    case UserStore(o, i, w) =>
      M.WalkEndsInLeaf(s.h, s.t, o);
      WritePages(s, s', LeafPath(o), i, w);
    case MarkEntry(p, i, w) =>
      WritePages(s, s', p, i, w);
  }

  lemma {:induction false} WritePages(s: M.VmMemory, s': M.VmMemory, p: Path, i: nat, w: Word)
    requires p in s.t.nodes && s.t.nodes.Values <= s.h.Keys && i < PTRS_PER_PAGE
    requires s' == s.(h := SetEntry(s.h, s.t.nodes[p], i, w))
    ensures OnlyGrows(s, s')
  {
    assert s.t.nodes[p] in s.t.nodes.Values;
  }

  lemma {:induction false} CreationPages(s: M.VmMemory, gpa: Word, s': M.VmMemory, r: Outcome)
    requires Tree(s.h, s.t) && Created(s.h, s.t, gpa, false, s'.h, s'.t, r)
    ensures OnlyGrows(s, s')
  {
    CreatedTakesReachable(s.h, s.t, gpa, false, s'.h, s'.t, r);
    CreatedNodes(s.h, s.t, gpa, false, s'.h, s'.t, r);
    KeepsValues(s.h, s.t, gpa, s'.t);
    assert s.t.nodes.Values <= s.h.Keys;
    assert s'.t.nodes.Values <= s'.h.Keys;
    forall x | x in s.h
      ensures x in s'.h && (x !in s.t.nodes.Values ==> s'.h[x] == s.h[x])
    {
      CreationKeepsPage(s, gpa, s', r, x);
    }
  }

  lemma {:induction false} KeepsValues(h: Heap, t: Npt, gpa: Word, t': Npt)
    requires NodesGrown(h, t, gpa, t')
    ensures t.nodes.Values <= t'.nodes.Values
  {
    forall x | x in t.nodes.Values
      ensures x in t'.nodes.Values
    {
      var q :| q in t.nodes && t.nodes[q] == x;
      assert t'.nodes[q] == x;
    }
  }

  lemma {:induction false} CreationKeepsPage(s: M.VmMemory, gpa: Word, s': M.VmMemory, r: Outcome, x: Pfn)
    requires Tree(s.h, s.t) && Created(s.h, s.t, gpa, false, s'.h, s'.t, r) && x in s.h
    ensures x in s'.h && (x !in s.t.nodes.Values ==> s'.h[x] == s.h[x])
  {
    if x !in s.t.nodes.Values {
      CreatedKeepsData(s.h, s.t, gpa, false, s'.h, s'.t, r, x);
    }
  }

  // Life cycle facts.

  /** Whoever can act on a VM keeps it alive. */
  lemma {:induction false} ActsAlive(l: L.Vm)
    requires L.Inv(l) && (l.file || l.running != {} || l.vcpuFiles != {} || l.threads != map[])
    ensures l.freed == 0 && !l.dying
  {
    if l.dying || l.freed > 0 {
      L.DyingAlone(l);
    }
  }

  lemma {:induction false} LifeKeeps(l: L.Vm, e: L.Event)
    requires L.Enabled(l, e) && !e.Create? && !e.DestroyVcpu? && !e.DestroyVm?
    ensures L.Next(l, e).freed == l.freed && L.Next(l, e).destroyed == l.destroyed && L.Next(l, e).created == l.created
  {
  }

  /** A destroyed VM has no live vcpu; a dying one has none but the installed one. */
  lemma {:induction false} LastVcpu(l: L.Vm, v: L.VcpuId)
    requires L.Inv(l) && v in l.created && v !in l.destroyed && (l.dying || l.freed > 0)
    ensures l.dying && l.freed == 0 && l.vcpu == Some(v)
  {
    L.DyingAlone(l);
  }

  // Every event keeps the ownership invariant.

  /** Only VM i, and of it only what holder k stands for, changes hands. */
  ghost predicate OnlyHolder(w: World, w': World, i: VmId, k: Holder) {
    && i in w.vms && i in w'.vms && w'.vms == w.vms[i := w'.vms[i]] && w'.leaked == w.leaked && w'.kernel == w.kernel
    && (k == TableOf(i) || (k.VcpuOf? && k.i == i))
    && (k != TableOf(i) ==> TablePages(w'.vms[i]) == TablePages(w.vms[i]))
    && (forall v :: k != VcpuOf(i, v) ==> VcpuPages(w'.vms[i], v) == VcpuPages(w.vms[i], v))
  }

  lemma {:induction false} OthersHold(w: World, w': World, i: VmId, k: Holder, j: Holder)
    requires OnlyHolder(w, w', i, k) && j != k
    ensures PagesOf(w', j) == PagesOf(w, j)
  {
  }

  /** A holder in VM i takes pages that were free. */
  lemma {:induction false} TakeOwned(w: World, w': World, i: VmId, k: Holder)
    requires Owned(w) && OnlyHolder(w, w', i, k)
    requires w'.h.Keys == w.h.Keys + PagesOf(w', k) && PagesOf(w, k) <= PagesOf(w', k)
    requires PagesOf(w', k) !! (w.h.Keys - PagesOf(w, k))
    ensures Owned(w')
  {
    forall j | j != k
      ensures PagesOf(w', j) == PagesOf(w, j)
    {
      OthersHold(w, w', i, k, j);
    }
    Exchange(w, w', k);
  }

  /** A holder in VM i gives back what it had. */
  lemma {:induction false} ReleaseOwned(w: World, w': World, i: VmId, k: Holder)
    requires Owned(w) && OnlyHolder(w, w', i, k)
    requires PagesOf(w', k) == {} && w'.h.Keys == w.h.Keys - PagesOf(w, k)
    ensures Owned(w')
  {
    forall j | j != k
      ensures PagesOf(w', j) == PagesOf(w, j)
    {
      OthersHold(w, w', i, k, j);
    }
    Exchange(w, w', k);
  }

  lemma {:induction false} SamePagesOwned(w: World, w': World)
    requires Owned(w) && w'.h.Keys == w.h.Keys && forall k :: PagesOf(w', k) == PagesOf(w, k)
    ensures Owned(w')
  {
    Exchange(w, w', Kernel);
  }

  lemma {:induction false} NewVmOwned(w: World, i: VmId, vm: Vm, w': World)
    requires Owned(w) && i !in w.vms && vm.life.freed == 0 && vm.vcpus == map[]
    requires w' == w.(h := w'.h, vms := w.vms[i := vm]) && N.Taken(w.h, w'.h, vm.table.nodes.Values)
    ensures Owned(w')
  {
    forall j | j != TableOf(i)
      ensures PagesOf(w', j) == PagesOf(w, j)
    {
      assert j.VcpuOf? && j.i == i ==> VcpuPages(vm, j.v) == {};
    }
    assert PagesOf(w', TableOf(i)) == vm.table.nodes.Values && PagesOf(w, TableOf(i)) == {};
    Exchange(w, w', TableOf(i));
  }

  lemma {:induction false} VmFailsOwned(w: World, rest: set<Pfn>, w': World)
    requires Owned(w) && N.Taken(w.h, w'.h, rest) && w' == w.(h := w'.h, leaked := w.leaked + rest)
    ensures Owned(w')
  {
    HoldersInHeap(w);
    assert PagesOf(w, Leaked) <= w.h.Keys;
    Exchange(w, w', Leaked);
  }

  lemma {:induction false} HoldersInHeap(w: World)
    requires Owned(w)
    ensures forall k :: PagesOf(w, k) <= w.h.Keys
  {
    forall k, x | x in PagesOf(w, k)
      ensures x in w.h
    {
      assert Held(w, x);
    }
  }

  lemma {:induction false} MemoryOwned(w: World, i: VmId, w': World)
    requires Owned(w) && i in w.vms && i in w'.vms && w.vms[i].life.freed == 0
    requires OnlyGrows(Memory(w.h, w.vms[i]), Memory(w'.h, w'.vms[i]))
    requires w' == w.(h := w'.h, vms := w.vms[i := w.vms[i].(table := w'.vms[i].table, user := w'.vms[i].user)])
    ensures Owned(w')
  {
    assert PagesOf(w, TableOf(i)) == Memory(w.h, w.vms[i]).t.nodes.Values;
    assert PagesOf(w', TableOf(i)) == Memory(w'.h, w'.vms[i]).t.nodes.Values;
    TakeOwned(w, w', i, TableOf(i));
  }

  lemma {:induction false} CreateVcpuOwned(w: World, i: VmId, v: L.VcpuId, c: C.VcpuMemory, vm: Vm, w': World)
    requires Owned(w) && i in w.vms && v !in w.vms[i].vcpus && v !in w.vms[i].life.destroyed
    requires vm.vcpus == w.vms[i].vcpus[v := c] && vm.table == w.vms[i].table
    requires vm.life.destroyed == w.vms[i].life.destroyed && vm.life.freed == w.vms[i].life.freed
    requires w'.vms == w.vms[i := vm] && w'.leaked == w.leaked && w'.kernel == w.kernel
    requires N.Taken(w.h, w'.h, C.Frames(c))
    ensures Owned(w')
  {
    assert PagesOf(w, VcpuOf(i, v)) == {} && PagesOf(w', VcpuOf(i, v)) == C.Frames(c);
    TakeOwned(w, w', i, VcpuOf(i, v));
  }

  lemma {:induction false} DestroyVcpuOwned(w: World, i: VmId, v: L.VcpuId, life: L.Vm, w': World)
    requires Owned(w) && AliveVcpu(w, i, v)
    requires life.destroyed == w.vms[i].life.destroyed + [v] && life.freed == w.vms[i].life.freed
    requires w' == w.(h := w.h - C.Frames(w.vms[i].vcpus[v]), vms := w.vms[i := w.vms[i].(life := life)])
    ensures Owned(w')
  {
    assert PagesOf(w, VcpuOf(i, v)) == C.Frames(w.vms[i].vcpus[v]);
    ReleaseOwned(w, w', i, VcpuOf(i, v));
  }

  lemma {:induction false} DestroyVmOwned(w: World, i: VmId, life: L.Vm, w': World)
    requires Owned(w) && i in w.vms && w.vms[i].life.freed == 0 && life.freed > 0
    requires var l := w.vms[i].life;
             && (l.vcpu.Some? ==> l.vcpu.value in w.vms[i].vcpus && l.vcpu.value !in l.destroyed)
             && life.destroyed == (if l.vcpu.Some? then l.destroyed + [l.vcpu.value] else l.destroyed)
    requires w' == w.(h := w.h - w.vms[i].table.nodes.Values - InstalledFrames(w.vms[i]),
                      vms := w.vms[i := w.vms[i].(life := life)])
    ensures Owned(w')
  {
    var vcpu := w.vms[i].life.vcpu;
    assert PagesOf(w, TableOf(i)) == w.vms[i].table.nodes.Values && PagesOf(w', TableOf(i)) == {};
    if vcpu.Some? {
      var k := VcpuOf(i, vcpu.value);
      assert PagesOf(w, k) == C.Frames(w.vms[i].vcpus[vcpu.value]) && PagesOf(w', k) == {};
      GiveBack(w, w', TableOf(i), k);
    } else {
      ReleaseOwned(w, w', i, TableOf(i));
    }
  }

  lemma {:induction false} LifeOwned(w: World, i: VmId, life: L.Vm, w': World)
    requires Owned(w) && i in w.vms
    requires life.destroyed == w.vms[i].life.destroyed && life.freed == w.vms[i].life.freed
    requires w' == w.(vms := w.vms[i := w.vms[i].(life := life)])
    ensures Owned(w')
  {
    SamePagesOwned(w, w');
  }

  // Every event keeps every VM well formed.

  ghost predicate SameOn(h: Heap, h': Heap, s: set<Pfn>) {
    forall x :: x in s ==> x in h && x in h' && h'[x] == h[x]
  }

  /** A VM whose pages are untouched stays as it was. */
  lemma {:induction false} VmFrame(h: Heap, h': Heap, vm: Vm, mmio: Word)
    requires VmOk(h, vm, mmio)
    requires SameOn(h, h', TablePages(vm)) && forall v :: SameOn(h, h', VcpuPages(vm, v))
    ensures VmOk(h', vm, mmio)
  {
    if vm.life.freed == 0 {
      TableFrame(Memory(h, vm), Memory(h', vm), mmio);
    }
    VcpusFrame(h, h', vm);
  }

  lemma {:induction false} VcpusFrame(h: Heap, h': Heap, vm: Vm)
    requires VcpusOk(h, vm) && forall v :: SameOn(h, h', VcpuPages(vm, v))
    ensures VcpusOk(h', vm)
  {
    forall v | v in vm.vcpus && v !in vm.life.destroyed
      ensures VcpuOk(h', vm, v)
    {
      assert SameOn(h, h', VcpuPages(vm, v));
      assert vm.vcpus[v].gvmcb in VcpuPages(vm, v);
      assert VcpuOk(h, vm, v);
    }
  }

  lemma {:induction false} TableFrame(s: M.VmMemory, s': M.VmMemory, mmio: Word)
    requires M.Inv(s, mmio) && s'.t == s.t && s'.user == s.user && SameOn(s.h, s'.h, s.t.nodes.Values)
    ensures M.Inv(s', mmio)
  {
    forall p | p in s.t.nodes
      ensures s.t.nodes[p] in s'.h && s'.h[s.t.nodes[p]] == s.h[s.t.nodes[p]]
    {
      assert s.t.nodes[p] in s.t.nodes.Values;
    }
    FrameTree(s.h, s'.h, s.t);
    M.SameTable(s, s');
  }

  /** An open vcpu file keeps its VM, its table and the vcpu itself. */
  lemma {:induction false} OpenVcpu(h: Heap, vm: Vm, v: L.VcpuId, mmio: Word)
    requires VmOk(h, vm, mmio) && v in vm.life.vcpuFiles
    ensures vm.life.freed == 0 && !vm.life.dying && v in vm.vcpus && v !in vm.life.destroyed
    ensures M.Inv(Memory(h, vm), mmio) && RootOf(h, vm.vcpus[v]) == Some(vm.table.root)
  {
    ActsAlive(vm.life);
    assert vm.life.vcpu == Some(v);
  }

  /** What the guest writes is what it would write through the table of its VM. */
  lemma {:induction false} GuestWriteIsStore(w: World, i: VmId, v: L.VcpuId, gpa: Word, k: nat, value: Word,
                                             w': World, mmio: Word)
    requires VmsOk(w, mmio) && GuestWriteStep(w, i, v, gpa, k, value, w')
    ensures VmOk(w.h, w.vms[i], mmio) && w.vms[i].life.freed == 0 && w'.vms == w.vms
    ensures M.Inv(Memory(w.h, w.vms[i]), mmio)
    ensures M.Step(Memory(w.h, w.vms[i]), M.GuestStore(gpa, k, value), Memory(w'.h, w.vms[i]))
  {
    OpenVcpu(w.h, w.vms[i], v, mmio);
  }

  /** Pages of different holders are different. */
  lemma {:induction false} Apart(w: World, j: Holder, k: Holder, x: Pfn)
    requires Owned(w) && j != k && x in PagesOf(w, j)
    ensures x in w.h && x !in PagesOf(w, k)
  {
    assert Held(w, x);
  }

  // Every event keeps the VM it concerns well formed.

  lemma {:induction false} NewVmOk(h: Heap, t: Npt, mmio: Word)
    requires Tree(h, t) && t.hidden == {LeafPath(mmio)}
    ensures VmOk(h, Vm(L.Init(), t, map[], map[], map[]), mmio)
  {
    L.InitInv();
  }

  lemma {:induction false} MemoryOk(h: Heap, vm: Vm, m: M.Event, h': Heap, vm': Vm, mmio: Word)
    requires VmOk(h, vm, mmio) && vm.life.freed == 0 && M.Step(Memory(h, vm), m, Memory(h', vm'))
    requires vm' == vm.(table := vm'.table, user := vm'.user)
    requires forall v :: SameOn(h, h', VcpuPages(vm, v))
    ensures VmOk(h', vm', mmio)
  {
    M.StepKeepsInv(Memory(h, vm), m, Memory(h', vm'), mmio);
    VcpusFrame(h, h', vm);
    forall v | v in vm.vcpus && v !in vm.life.destroyed
      ensures VcpuOk(h', vm', v)
    {
      assert VcpuOk(h', vm, v);
    }
  }

  lemma {:induction false} VcpuWriteOk(h: Heap, vm: Vm, v: L.VcpuId, x: Pfn, page: Page, mmio: Word)
    requires VmOk(h, vm, mmio) && v in vm.vcpus && v !in vm.life.destroyed && x in C.Frames(vm.vcpus[v]) && x in h
    requires x == vm.vcpus[v].gvmcb ==>
               page[C.NCR3_WORD] == h[x][C.NCR3_WORD] && page[C.ASID_WORD] == h[x][C.ASID_WORD]
    requires x !in TablePages(vm) && forall u :: u != v ==> x !in VcpuPages(vm, u)
    requires TablePages(vm) <= h.Keys && forall u :: VcpuPages(vm, u) <= h.Keys
    ensures VmOk(h[x := page], vm, mmio)
  {
    if vm.life.freed == 0 {
      TableFrame(Memory(h, vm), Memory(h[x := page], vm), mmio);
    }
    forall u | u in vm.vcpus && u !in vm.life.destroyed
      ensures VcpuOk(h[x := page], vm, u)
    {
      assert u != v ==> vm.vcpus[u].gvmcb in VcpuPages(vm, u);
      WordsKept(h, vm, u, x, page);
    }
  }

  lemma {:induction false} WordsKept(h: Heap, vm: Vm, u: L.VcpuId, x: Pfn, page: Page)
    requires u in vm.vcpus && u in vm.asids && VcpuOk(h, vm, u)
    requires x == vm.vcpus[u].gvmcb && x in h ==>
               page[C.NCR3_WORD] == h[x][C.NCR3_WORD] && page[C.ASID_WORD] == h[x][C.ASID_WORD]
    ensures VcpuOk(h[x := page], vm, u)
  {
  }

  lemma {:induction false} CreatesOne(l: L.Vm, t: L.Tid, v: L.VcpuId)
    requires L.Enabled(l, L.Create(t, v))
    ensures var l' := L.Next(l, L.Create(t, v));
            l'.freed == l.freed && l'.created == l.created + {v} && l'.destroyed == l.destroyed
  {
  }

  lemma {:induction false} NewVcpuOk(h: Heap, vm: Vm, v: L.VcpuId, c: C.VcpuMemory, asid: nat, h': Heap, vm': Vm)
    requires VcpusOk(h', vm) && C.VcpuTaken(h, h', c, vm.table.root * PAGE_SIZE, asid)
    requires vm'.table == vm.table && vm'.vcpus == vm.vcpus[v := c] && vm'.asids == vm.asids[v := asid]
    requires vm'.life.created == vm.life.created + {v} && vm'.life.destroyed == vm.life.destroyed
    ensures VcpusOk(h', vm')
  {
    forall u | u in vm'.vcpus && u !in vm'.life.destroyed
      ensures VcpuOk(h', vm', u)
    {
      if u != v {
        assert VcpuOk(h', vm, u);
      } else {
        RootIsPacked(vm.table.root);
      }
    }
  }

  lemma RootIsPacked(root: Pfn)
    ensures EntryPfn(root * PAGE_SIZE) == root
  {
  }

  /** Events of the life cycle that free at most one vcpu. */
  lemma {:induction false} LifeOk(h: Heap, vm: Vm, l: L.Event, h': Heap, mmio: Word)
    requires VmOk(h, vm, mmio) && L.Enabled(vm.life, l) && !l.Create? && !l.DestroyVm?
    requires SameOn(h, h', TablePages(vm))
    requires forall v :: v !in L.Next(vm.life, l).destroyed ==> SameOn(h, h', VcpuPages(vm, v))
    ensures VmOk(h', vm.(life := L.Next(vm.life, l)), mmio)
  {
    L.StepKeepsInv(vm.life, l);
    var vm' := vm.(life := L.Next(vm.life, l));
    LifeGoesOn(vm.life, l);
    if vm.life.freed == 0 {
      TableFrame(Memory(h, vm), Memory(h', vm), mmio);
    }
    forall v | v in vm'.vcpus && v !in vm'.life.destroyed
      ensures VcpuOk(h', vm', v)
    {
      assert VcpuOk(h, vm, v);
      assert SameOn(h, h', VcpuPages(vm, v));
      assert vm.vcpus[v].gvmcb in VcpuPages(vm, v);
    }
  }

  lemma {:induction false} LifeGoesOn(l: L.Vm, e: L.Event)
    requires L.Enabled(l, e) && !e.Create? && !e.DestroyVm?
    ensures L.Next(l, e).freed == l.freed && L.Next(l, e).created == l.created
    ensures forall v :: v in l.destroyed ==> v in L.Next(l, e).destroyed
  {
  }

  lemma {:induction false} DestroyVmOk(h: Heap, vm: Vm, h': Heap, mmio: Word)
    requires VmOk(h, vm, mmio) && L.Enabled(vm.life, L.DestroyVm)
    ensures VmOk(h', vm.(life := L.Next(vm.life, L.DestroyVm)), mmio)
  {
    L.StepKeepsInv(vm.life, L.DestroyVm);
    var vm' := vm.(life := L.Next(vm.life, L.DestroyVm));
    forall v | v in vm'.vcpus
      ensures v in vm'.life.destroyed
    {
      if v !in vm.life.destroyed {
        LastVcpu(vm.life, v);
      }
    }
  }

  // Every event.

  /** The holders whose pages an event may write to or free. */
  predicate Touches(w: World, e: Event, k: Holder) {
    match e
    case MemoryEvent(i, _) => k == TableOf(i)
    case GuestWrite(i, _, _, _, _) => k == TableOf(i)
    case VcpuWrite(i, v, _, _) => k == VcpuOf(i, v)
    case DestroyVcpu(i, t) =>
      && i in w.vms && L.Enabled(w.vms[i].life, L.DestroyVcpu(t)) && k == VcpuOf(i, w.vms[i].life.threads[t].v)
    case DestroyVm(i) =>
      k == TableOf(i) || (i in w.vms && w.vms[i].life.vcpu.Some? && k == VcpuOf(i, w.vms[i].life.vcpu.value))
    case KernelMoves(_) => k == Kernel
    case _ => false
  }

  ghost predicate SameElsewhere(h: Heap, h': Heap, s: set<Pfn>) {
    forall x :: x in h && x !in s ==> x in h' && h'[x] == h[x]
  }

  /** A holder that is not among those whose pages change. */
  lemma {:induction false} Spared(w: World, w': World, s: set<Pfn>, k: Holder)
    requires Owned(w) && SameElsewhere(w.h, w'.h, s) && s !! PagesOf(w, k)
    ensures SameOn(w.h, w'.h, PagesOf(w, k))
  {
    HoldersInHeap(w);
  }

  lemma {:induction false} ApartAll(w: World, j: Holder, k: Holder)
    requires Owned(w) && j != k
    ensures PagesOf(w, j) !! PagesOf(w, k)
  {
  }

  lemma {:induction false} MemorySpares(w: World, i: VmId, m: M.Event, w': World, mmio: Word, k: Holder)
    requires Owned(w) && i in w.vms && i in w'.vms && M.Inv(Memory(w.h, w.vms[i]), mmio) && w.vms[i].life.freed == 0
    requires M.Step(Memory(w.h, w.vms[i]), m, Memory(w'.h, w'.vms[i])) && k != TableOf(i)
    ensures SameOn(w.h, w'.h, PagesOf(w, k))
  {
    MemoryStepPages(Memory(w.h, w.vms[i]), m, Memory(w'.h, w'.vms[i]), mmio);
    ApartAll(w, TableOf(i), k);
    assert SameElsewhere(w.h, w'.h, PagesOf(w, TableOf(i)));
    Spared(w, w', PagesOf(w, TableOf(i)), k);
  }

  lemma {:induction false} GuestWriteSpares(w: World, i: VmId, v: L.VcpuId, gpa: Word, n: nat, value: Word, w': World,
                                            mmio: Word, k: Holder)
    requires Owned(w) && VmsOk(w, mmio) && GuestWriteStep(w, i, v, gpa, n, value, w') && k != TableOf(i)
    ensures SameOn(w.h, w'.h, PagesOf(w, k))
  {
    hide Owned;
    GuestWriteIsStore(w, i, v, gpa, n, value, w', mmio);
    MemorySpares(w, i, M.GuestStore(gpa, n, value), w', mmio, k);
  }

  /** The vcpu that a thread is about to destroy is live. */
  lemma {:induction false} DoomedIsLive(h: Heap, vm: Vm, t: L.Tid, mmio: Word)
    requires VmOk(h, vm, mmio) && L.Enabled(vm.life, L.DestroyVcpu(t))
    ensures vm.life.threads[t].v in vm.vcpus && vm.life.threads[t].v !in vm.life.destroyed
  {
    assert L.Owns(vm.life.threads[t], vm.life.threads[t].v);
  }

  lemma {:induction false} InstalledIsLive(h: Heap, vm: Vm, mmio: Word)
    requires VmOk(h, vm, mmio) && L.Enabled(vm.life, L.DestroyVm)
    ensures vm.life.freed == 0
    ensures vm.life.vcpu.Some? ==> vm.life.vcpu.value in vm.vcpus && vm.life.vcpu.value !in vm.life.destroyed
  {
  }

  lemma {:induction false} TwoSpare(w: World, w': World, j: Holder, l: Holder, k: Holder)
    requires Owned(w) && k != j && k != l && SameElsewhere(w.h, w'.h, PagesOf(w, j) + PagesOf(w, l))
    ensures SameOn(w.h, w'.h, PagesOf(w, k))
  {
    ApartAll(w, j, k);
    ApartAll(w, l, k);
    Spared(w, w', PagesOf(w, j) + PagesOf(w, l), k);
  }

  lemma {:induction false} DestroyVmSpares(w: World, i: VmId, w': World, k: Holder)
    requires Owned(w) && i in w.vms && w.vms[i].life.freed == 0 && k != TableOf(i)
    requires var l := w.vms[i].life; l.vcpu.Some? ==>
               l.vcpu.value in w.vms[i].vcpus && l.vcpu.value !in l.destroyed && k != VcpuOf(i, l.vcpu.value)
    requires w'.h == w.h - w.vms[i].table.nodes.Values - InstalledFrames(w.vms[i])
    ensures SameOn(w.h, w'.h, PagesOf(w, k))
  {
    var vm := w.vms[i];
    var other := if vm.life.vcpu.Some? then VcpuOf(i, vm.life.vcpu.value) else TableOf(i);
    assert PagesOf(w, TableOf(i)) == vm.table.nodes.Values;
    assert vm.life.vcpu.Some? ==> PagesOf(w, other) == InstalledFrames(vm);
    TwoSpare(w, w', TableOf(i), other, k);
  }

  lemma {:induction false} DestroyVcpuSpares(w: World, i: VmId, v: L.VcpuId, w': World, k: Holder)
    requires Owned(w) && AliveVcpu(w, i, v) && k != VcpuOf(i, v)
    requires w'.h == w.h - C.Frames(w.vms[i].vcpus[v])
    ensures SameOn(w.h, w'.h, PagesOf(w, k))
  {
    assert PagesOf(w, VcpuOf(i, v)) == C.Frames(w.vms[i].vcpus[v]);
    TwoSpare(w, w', VcpuOf(i, v), VcpuOf(i, v), k);
  }

  lemma {:induction false} VcpuWriteSpares(w: World, i: VmId, v: L.VcpuId, x: Pfn, page: Page, w': World, k: Holder)
    requires Owned(w) && AliveVcpu(w, i, v) && k != VcpuOf(i, v) && x in C.Frames(w.vms[i].vcpus[v])
    requires w'.h == w.h[x := page]
    ensures SameOn(w.h, w'.h, PagesOf(w, k))
  {
    assert PagesOf(w, VcpuOf(i, v)) == C.Frames(w.vms[i].vcpus[v]);
    TwoSpare(w, w', VcpuOf(i, v), VcpuOf(i, v), k);
  }

  lemma {:induction false} AddingSpares(w: World, w': World, k: Holder)
    requires Owned(w) && forall x :: x in w.h ==> x in w'.h && w'.h[x] == w.h[x]
    ensures SameOn(w.h, w'.h, PagesOf(w, k))
  {
    HoldersInHeap(w);
  }

  lemma {:induction false} KernelSpares(w: World, kernel: set<Pfn>, w': World, k: Holder)
    requires Owned(w) && KernelStep(w, kernel, w') && k != Kernel
    ensures SameOn(w.h, w'.h, PagesOf(w, k))
  {
    assert PagesOf(w, Kernel) == w.kernel;
    TwoSpare(w, w', Kernel, Kernel, k);
  }

  lemma {:induction false} AddingStepSpares(w: World, e: Event, w': World, k: Holder, mmio: Word, limit: U32)
    requires Owned(w) && Step(w, e, w', mmio, limit) && (e.NewVm? || e.VmFails? || e.CreateVcpu? || e.Life?)
    ensures SameOn(w.h, w'.h, PagesOf(w, k))
  {
    hide Owned;
    AddingSpares(w, w', k);
  }

  lemma {:induction false} DestroyingStepSpares(w: World, e: Event, w': World, k: Holder, mmio: Word, limit: U32)
    requires Owned(w) && VmsOk(w, mmio) && Step(w, e, w', mmio, limit) && !Touches(w, e, k)
             && (e.DestroyVcpu? || e.DestroyVm?)
    ensures SameOn(w.h, w'.h, PagesOf(w, k))
  {
    hide Owned;
    match e
    case DestroyVcpu(i, t) =>
      DoomedIsLive(w.h, w.vms[i], t, mmio);
      DestroyVcpuSpares(w, i, w.vms[i].life.threads[t].v, w', k);
    case DestroyVm(i) =>
      InstalledIsLive(w.h, w.vms[i], mmio);
      DestroyVmSpares(w, i, w', k);
  }

  lemma {:induction false} WritingStepSpares(w: World, e: Event, w': World, k: Holder, mmio: Word, limit: U32)
    requires Owned(w) && VmsOk(w, mmio) && Step(w, e, w', mmio, limit) && !Touches(w, e, k)
    requires e.MemoryEvent? || e.GuestWrite? || e.VcpuWrite? || e.KernelMoves?
    ensures SameOn(w.h, w'.h, PagesOf(w, k))
  {
    hide Owned;
    match e
    case MemoryEvent(i, m) =>
      ActsAlive(w.vms[i].life);
      MemorySpares(w, i, m, w', mmio, k);
    case GuestWrite(i, v, gpa, n, value) => GuestWriteSpares(w, i, v, gpa, n, value, w', mmio, k);
    case VcpuWrite(i, v, x, page) => VcpuWriteSpares(w, i, v, x, page, w', k);
    case KernelMoves(kernel) => KernelSpares(w, kernel, w', k);
  }

  /** Isolation, event by event: everyone else's pages stay allocated, with the same contents. */
  lemma {:induction false} StepSpares(w: World, e: Event, w': World, k: Holder, mmio: Word, limit: U32)
    requires Owned(w) && VmsOk(w, mmio) && Step(w, e, w', mmio, limit) && !Touches(w, e, k)
    ensures SameOn(w.h, w'.h, PagesOf(w, k))
  {
    hide Owned, VmsOk, Touches, SameOn, Step;
    if e.NewVm? || e.VmFails? || e.CreateVcpu? || e.Life? {
      AddingStepSpares(w, e, w', k, mmio, limit);
    } else if e.DestroyVcpu? || e.DestroyVm? {
      DestroyingStepSpares(w, e, w', k, mmio, limit);
    } else {
      WritingStepSpares(w, e, w', k, mmio, limit);
    }
  }

  lemma {:induction false} MemoryStepOwned(w: World, e: Event, w': World, mmio: Word, limit: U32)
    requires Owned(w) && VmsOk(w, mmio) && Step(w, e, w', mmio, limit) && e.MemoryEvent?
    ensures Owned(w')
  {
    hide Owned;
    var MemoryEvent(i, m) := e;
    ActsAlive(w.vms[i].life);
    MemoryStepPages(Memory(w.h, w.vms[i]), m, Memory(w'.h, w'.vms[i]), mmio);
    MemoryOwned(w, i, w');
  }

  lemma {:induction false} CreateStepOwned(w: World, e: Event, w': World, mmio: Word, limit: U32)
    requires Owned(w) && VmsOk(w, mmio) && Step(w, e, w', mmio, limit) && e.CreateVcpu?
    ensures Owned(w')
  {
    hide Owned;
    var CreateVcpu(i, t, v, c) := e;
    CreatesOne(w.vms[i].life, t, v);
    NeverDestroyed(w.vms[i].life, t, v);
    CreateVcpuOwned(w, i, v, c, w'.vms[i], w');
  }

  lemma {:induction false} DestroyVcpuStepOwned(w: World, e: Event, w': World, mmio: Word, limit: U32)
    requires Owned(w) && VmsOk(w, mmio) && Step(w, e, w', mmio, limit) && e.DestroyVcpu?
    ensures Owned(w')
  {
    hide Owned;
    var DestroyVcpu(i, t) := e;
    DoomedIsLive(w.h, w.vms[i], t, mmio);
    DestroyVcpuOwned(w, i, w.vms[i].life.threads[t].v, w'.vms[i].life, w');
  }

  lemma {:induction false} DestroyVmStepOwned(w: World, e: Event, w': World, mmio: Word, limit: U32)
    requires Owned(w) && VmsOk(w, mmio) && Step(w, e, w', mmio, limit) && e.DestroyVm?
    ensures Owned(w')
  {
    hide Owned;
    var i := e.i;
    InstalledIsLive(w.h, w.vms[i], mmio);
    DestroyVmOwned(w, i, w'.vms[i].life, w');
  }

  lemma {:induction false} LifeStepOwned(w: World, e: Event, w': World, mmio: Word, limit: U32)
    requires Owned(w) && VmsOk(w, mmio) && Step(w, e, w', mmio, limit) && e.Life?
    ensures Owned(w')
  {
    hide Owned;
    var Life(i, l) := e;
    LifeKeeps(w.vms[i].life, l);
    LifeOwned(w, i, w'.vms[i].life, w');
  }

  lemma {:induction false} WriteOwned(w: World, w': World)
    requires Owned(w) && w'.h.Keys == w.h.Keys && w' == w.(h := w'.h)
    ensures Owned(w')
  {
    SamePagesOwned(w, w');
  }

  lemma {:induction false} MoreStepsOwned(w: World, e: Event, w': World, mmio: Word, limit: U32)
    requires Owned(w) && Step(w, e, w', mmio, limit)
    requires e.NewVm? || e.VmFails? || e.GuestWrite? || e.VcpuWrite? || e.KernelMoves?
    ensures Owned(w')
  {
    hide Owned;
    match e
    case NewVm(i, _) => NewVmOwned(w, i, w'.vms[i], w');
    case VmFails(left) => VmFailsOwned(w, N.Rest(left), w');
    case GuestWrite(_, _, _, _, _) => WriteOwned(w, w');
    case VcpuWrite(_, _, _, _) => WriteOwned(w, w');
    case KernelMoves(_) => KernelOwned(w, w');
  }

  lemma {:induction false} StepKeepsOwned(w: World, e: Event, w': World, mmio: Word, limit: U32)
    requires Owned(w) && VmsOk(w, mmio) && Step(w, e, w', mmio, limit)
    ensures Owned(w')
  {
    hide Owned, VmsOk;
    match e
    case MemoryEvent(_, _) => MemoryStepOwned(w, e, w', mmio, limit);
    case CreateVcpu(_, _, _, _) => CreateStepOwned(w, e, w', mmio, limit);
    case DestroyVcpu(_, _) => DestroyVcpuStepOwned(w, e, w', mmio, limit);
    case DestroyVm(_) => DestroyVmStepOwned(w, e, w', mmio, limit);
    case Life(_, _) => LifeStepOwned(w, e, w', mmio, limit);
    case _ => MoreStepsOwned(w, e, w', mmio, limit);
  }

  lemma {:induction false} NeverDestroyed(l: L.Vm, t: L.Tid, v: L.VcpuId)
    requires L.Inv(l) && L.Enabled(l, L.Create(t, v))
    ensures v !in l.created && v !in l.destroyed
  {
  }

  lemma {:induction false} KernelOwned(w: World, w': World)
    requires Owned(w) && w' == w.(h := w'.h, kernel := w'.kernel)
    requires w'.kernel !! (w.h.Keys - w.kernel) && w'.h.Keys == w.h.Keys - w.kernel + w'.kernel
    ensures Owned(w')
  {
    assert PagesOf(w, Kernel) == w.kernel && PagesOf(w', Kernel) == w'.kernel;
    Exchange(w, w', Kernel);
  }

  /** A VM that the event does not concern is untouched: its life, its table, and every page it holds. */
  lemma {:induction false} StepSparesVm(w: World, e: Event, w': World, j: VmId, mmio: Word, limit: U32)
    requires Owned(w) && VmsOk(w, mmio) && Step(w, e, w', mmio, limit) && j in w.vms && !Concerns(e, j)
    ensures j in w'.vms && w'.vms[j] == w.vms[j]
    ensures SameOn(w.h, w'.h, TablePages(w.vms[j])) && forall v :: SameOn(w.h, w'.h, VcpuPages(w.vms[j], v))
  {
    hide Owned, VmsOk, SameOn, Step;
    VmUnchanged(w, e, w', j, mmio, limit);
    TouchesConcerned(w, e, j);
    TableSpared(w, e, w', j, mmio, limit);
    VcpusSpared(w, e, w', j, mmio, limit);
  }

  lemma {:induction false} TouchesConcerned(w: World, e: Event, j: VmId)
    requires !Concerns(e, j)
    ensures !Touches(w, e, TableOf(j)) && forall v :: !Touches(w, e, VcpuOf(j, v))
  {
  }

  lemma {:induction false} VmUnchanged(w: World, e: Event, w': World, j: VmId, mmio: Word, limit: U32)
    requires Step(w, e, w', mmio, limit) && j in w.vms && !Concerns(e, j)
    ensures j in w'.vms && w'.vms[j] == w.vms[j]
  {
  }

  lemma {:induction false} StepKeepsVm(w: World, e: Event, w': World, j: VmId, mmio: Word, limit: U32)
    requires Owned(w) && VmsOk(w, mmio) && Step(w, e, w', mmio, limit) && j in w'.vms
    ensures VmOk(w'.h, w'.vms[j], mmio)
  {
    if !Concerns(e, j) {
      assert j in w.vms;
      StepSparesVm(w, e, w', j, mmio, limit);
      VmFrame(w.h, w'.h, w.vms[j], mmio);
    } else {
      ConcernedStaysOk(w, e, w', j, mmio, limit);
    }
  }

  lemma {:induction false} OneVmOk(w: World, i: VmId, mmio: Word)
    requires VmsOk(w, mmio) && i in w.vms
    ensures VmOk(w.h, w.vms[i], mmio)
  {
  }

  lemma {:induction false} ActingVmOk(w: World, i: VmId, m: M.Event, w': World, mmio: Word)
    requires VmsOk(w, mmio) && MemoryStep(w, i, m, w')
    ensures VmOk(w.h, w.vms[i], mmio) && w.vms[i].life.freed == 0
  {
    ActsAlive(w.vms[i].life);
  }

  lemma {:induction false} MemoryStepOk(w: World, i: VmId, m: M.Event, w': World, mmio: Word, limit: U32)
    requires Owned(w) && VmsOk(w, mmio) && MemoryStep(w, i, m, w')
    ensures VmOk(w'.h, w'.vms[i], mmio)
  {
    hide Owned, VmsOk, VmOk, SameOn;
    ActingVmOk(w, i, m, w', mmio);
    VcpusSpared(w, MemoryEvent(i, m), w', i, mmio, limit);
    MemoryOk(w.h, w.vms[i], m, w'.h, w'.vms[i], mmio);
  }

  lemma {:induction false} GuestWriteOk(w: World, i: VmId, v: L.VcpuId, gpa: Word, n: nat, value: Word, w': World,
                                        mmio: Word, limit: U32)
    requires Owned(w) && VmsOk(w, mmio) && GuestWriteStep(w, i, v, gpa, n, value, w')
    ensures VmOk(w'.h, w.vms[i], mmio)
  {
    hide Owned, VmsOk, VmOk, SameOn, VcpuPages;
    GuestWriteIsStore(w, i, v, gpa, n, value, w', mmio);
    VcpusSpared(w, GuestWrite(i, v, gpa, n, value), w', i, mmio, limit);
    MemoryOk(w.h, w.vms[i], M.GuestStore(gpa, n, value), w'.h, w.vms[i], mmio);
  }

  lemma {:induction false} CreateStepOk(w: World, e: Event, w': World, mmio: Word, limit: U32)
    requires Owned(w) && VmsOk(w, mmio) && Step(w, e, w', mmio, limit) && e.CreateVcpu?
    ensures VmOk(w'.h, w'.vms[e.i], mmio)
  {
    OldPartsOk(w, e, w', mmio, limit);
    LifeAfterCreate(w, e, w', mmio, limit);
    NewVcpuOk(w.h, w.vms[e.i], e.v, e.vcpu, w'.counter, w'.h, w'.vms[e.i]);
  }

  lemma {:induction false} OldPartsOk(w: World, e: Event, w': World, mmio: Word, limit: U32)
    requires Owned(w) && VmsOk(w, mmio) && Step(w, e, w', mmio, limit) && e.CreateVcpu?
    ensures VcpusOk(w'.h, w.vms[e.i]) && w'.vms[e.i].table == w.vms[e.i].table
    ensures w'.vms[e.i].life.freed == 0 ==> M.Inv(Memory(w'.h, w'.vms[e.i]), mmio)
  {
    var vm := w.vms[e.i];
    TableSpared(w, e, w', e.i, mmio, limit);
    VcpusSpared(w, e, w', e.i, mmio, limit);
    VmFrame(w.h, w'.h, vm, mmio);
    CreatesOne(vm.life, e.t, e.v);
    assert Memory(w'.h, w'.vms[e.i]) == Memory(w'.h, vm);
  }

  lemma {:induction false} LifeAfterCreate(w: World, e: Event, w': World, mmio: Word, limit: U32)
    requires VmsOk(w, mmio) && Step(w, e, w', mmio, limit) && e.CreateVcpu?
    ensures L.Inv(w'.vms[e.i].life)
    ensures w'.vms[e.i].life.created == w.vms[e.i].life.created + {e.v}
    ensures w'.vms[e.i].life.destroyed == w.vms[e.i].life.destroyed
  {
    CreatesOne(w.vms[e.i].life, e.t, e.v);
    L.StepKeepsInv(w.vms[e.i].life, L.Create(e.t, e.v));
  }

  lemma {:induction false} DestroyVcpuStepOk(w: World, i: VmId, t: L.Tid, w': World, mmio: Word, limit: U32)
    requires Owned(w) && VmsOk(w, mmio) && DestroyVcpuStep(w, i, t, w')
    ensures VmOk(w'.h, w'.vms[i], mmio)
  {
    hide Owned, VmsOk, VmOk, SameOn;
    OneVmOk(w, i, mmio);
    TableSpared(w, DestroyVcpu(i, t), w', i, mmio, limit);
    VcpusSpared(w, DestroyVcpu(i, t), w', i, mmio, limit);
    LifeOk(w.h, w.vms[i], L.DestroyVcpu(t), w'.h, mmio);
  }

  lemma {:induction false} LifeStepOk(w: World, i: VmId, l: L.Event, w': World, mmio: Word, limit: U32)
    requires Owned(w) && VmsOk(w, mmio) && LifeStep(w, i, l, w')
    ensures VmOk(w'.h, w'.vms[i], mmio)
  {
    hide Owned, VmsOk, VmOk, SameOn;
    OneVmOk(w, i, mmio);
    TableSpared(w, Life(i, l), w', i, mmio, limit);
    VcpusSpared(w, Life(i, l), w', i, mmio, limit);
    LifeOk(w.h, w.vms[i], l, w'.h, mmio);
  }

  lemma {:induction false} ConcernedStaysOk(w: World, e: Event, w': World, i: VmId, mmio: Word, limit: U32)
    requires Owned(w) && VmsOk(w, mmio) && Step(w, e, w', mmio, limit) && i in w'.vms && Concerns(e, i)
    ensures VmOk(w'.h, w'.vms[i], mmio)
  {
    hide Owned, VmOk;
    match e
    case NewVm(_, t) => NewVmOk(w'.h, t, mmio);
    case MemoryEvent(_, m) => MemoryStepOk(w, i, m, w', mmio, limit);
    case GuestWrite(_, v, gpa, n, value) => GuestWriteOk(w, i, v, gpa, n, value, w', mmio, limit);
    case VcpuWrite(_, v, x, page) => VcpuWriteKeeps(w, i, v, x, page, mmio);
    case CreateVcpu(_, _, _, _) => CreateStepOk(w, e, w', mmio, limit);
    case DestroyVcpu(_, t) => DestroyVcpuStepOk(w, i, t, w', mmio, limit);
    case DestroyVm(_) => DestroyVmOk(w.h, w.vms[i], w'.h, mmio);
    case Life(_, l) => LifeStepOk(w, i, l, w', mmio, limit);
  }

  lemma {:induction false} TableSpared(w: World, e: Event, w': World, i: VmId, mmio: Word, limit: U32)
    requires Owned(w) && VmsOk(w, mmio) && Step(w, e, w', mmio, limit) && i in w.vms && !Touches(w, e, TableOf(i))
    ensures SameOn(w.h, w'.h, TablePages(w.vms[i]))
  {
    hide Owned, VmsOk, SameOn, Step, Touches;
    assert PagesOf(w, TableOf(i)) == TablePages(w.vms[i]);
    StepSpares(w, e, w', TableOf(i), mmio, limit);
  }

  lemma {:induction false} VcpusSpared(w: World, e: Event, w': World, i: VmId, mmio: Word, limit: U32)
    requires Owned(w) && VmsOk(w, mmio) && Step(w, e, w', mmio, limit) && i in w.vms
    ensures forall v :: !Touches(w, e, VcpuOf(i, v)) ==> SameOn(w.h, w'.h, VcpuPages(w.vms[i], v))
  {
    hide Owned, VmsOk, Step, Touches, SameOn, VcpuPages;
    forall v | !Touches(w, e, VcpuOf(i, v))
      ensures SameOn(w.h, w'.h, VcpuPages(w.vms[i], v))
    {
      assert PagesOf(w, VcpuOf(i, v)) == VcpuPages(w.vms[i], v);
      StepSpares(w, e, w', VcpuOf(i, v), mmio, limit);
    }
  }

  lemma {:induction false} VcpuWriteKeeps(w: World, i: VmId, v: L.VcpuId, x: Pfn, page: Page, mmio: Word)
    requires Owned(w) && VmsOk(w, mmio) && AliveVcpu(w, i, v) && x in C.Frames(w.vms[i].vcpus[v]) && x in w.h
    requires x == w.vms[i].vcpus[v].gvmcb ==>
               page[C.NCR3_WORD] == w.h[x][C.NCR3_WORD] && page[C.ASID_WORD] == w.h[x][C.ASID_WORD]
    ensures VmOk(w.h[x := page], w.vms[i], mmio)
  {
    VmPagesInHeap(w, i);
    VmPagesApart(w, i, v, x);
    VcpuWriteOk(w.h, w.vms[i], v, x, page, mmio);
  }

  lemma {:induction false} VmPagesInHeap(w: World, i: VmId)
    requires Owned(w) && i in w.vms
    ensures TablePages(w.vms[i]) <= w.h.Keys && forall u :: VcpuPages(w.vms[i], u) <= w.h.Keys
  {
    HoldersInHeap(w);
    assert PagesOf(w, TableOf(i)) == TablePages(w.vms[i]);
    forall u
      ensures VcpuPages(w.vms[i], u) <= w.h.Keys
    {
      assert PagesOf(w, VcpuOf(i, u)) == VcpuPages(w.vms[i], u);
    }
  }

  lemma {:induction false} VmPagesApart(w: World, i: VmId, v: L.VcpuId, x: Pfn)
    requires Owned(w) && i in w.vms && x in VcpuPages(w.vms[i], v)
    ensures x !in TablePages(w.vms[i]) && forall u :: u != v ==> x !in VcpuPages(w.vms[i], u)
  {
    assert x in PagesOf(w, VcpuOf(i, v));
    Apart(w, VcpuOf(i, v), TableOf(i), x);
    forall u | u != v
      ensures x !in VcpuPages(w.vms[i], u)
    {
      Apart(w, VcpuOf(i, v), VcpuOf(i, u), x);
    }
  }

  /** The counter only moves when a vcpu gets the identifier it moves to. */
  lemma {:induction false} StepKeepsAsids(w: World, e: Event, w': World, mmio: Word, limit: U32)
    requires AsidsUnique(w, limit) && Step(w, e, w', mmio, limit)
    ensures AsidsUnique(w', limit)
  {
    CounterMoves(w, e, w', mmio, limit);
    forall i, v, a: nat | HasAsid(w', i, v, a)
      ensures HasAsid(w, i, v, a) || Assigned(w, e, w', i, v, a)
    {
      AsidIsOldOrNew(w, e, w', i, v, a, mmio, limit);
    }
    StillUnique(w, e, w', limit);
  }

  lemma {:induction false} CounterMoves(w: World, e: Event, w': World, mmio: Word, limit: U32)
    requires Step(w, e, w', mmio, limit) && w.counter < limit
    ensures w.counter <= w'.counter < limit
  {
  }

  lemma {:induction false} StillUnique(w: World, e: Event, w': World, limit: U32)
    requires AsidsUnique(w, limit) && w.counter <= w'.counter < limit
    requires forall i, v, a: nat :: HasAsid(w', i, v, a) ==> HasAsid(w, i, v, a) || Assigned(w, e, w', i, v, a)
    ensures AsidsUnique(w', limit)
  {
  }

  /** The event gave this vcpu the next ASID. */
  predicate Assigned(w: World, e: Event, w': World, i: VmId, v: L.VcpuId, a: nat) {
    w'.counter == w.counter + 1 && a == w'.counter && e.CreateVcpu? && i == e.i && v == e.v
  }

  lemma {:induction false} AsidIsOldOrNew(w: World, e: Event, w': World, i: VmId, v: L.VcpuId, a: nat, mmio: Word,
                                          limit: U32)
    requires Step(w, e, w', mmio, limit) && HasAsid(w', i, v, a)
    ensures HasAsid(w, i, v, a) || Assigned(w, e, w', i, v, a)
  {
  }

  lemma {:induction false} StepKeepsInv(w: World, e: Event, w': World, mmio: Word, limit: U32)
    requires Inv(w, mmio, limit) && Step(w, e, w', mmio, limit)
    ensures Inv(w', mmio, limit)
  {
    hide Owned, VmOk, AsidsUnique, Step;
    StepKeepsOwned(w, e, w', mmio, limit);
    StepKeepsAsids(w, e, w', mmio, limit);
    forall j | j in w'.vms
      ensures VmOk(w'.h, w'.vms[j], mmio)
    {
      StepKeepsVm(w, e, w', j, mmio, limit);
    }
  }

  // Whole runs.

  /** After the module is loaded: every allocated page is the kernel's, and no VM exists. */
  function Boot(h: Heap): World {
    World(h, map[], 1, {}, h.Keys)
  }

  lemma BootInv(h: Heap, mmio: Word, limit: U32)
    requires limit > 1
    ensures Inv(Boot(h), mmio, limit)
  {
    forall x
      ensures x in h <==> Held(Boot(h), x)
    {
      assert x in h ==> x in PagesOf(Boot(h), Kernel);
    }
  }

  ghost predicate Run(ws: seq<World>, es: seq<Event>, mmio: Word, limit: U32) {
    && |ws| == |es| + 1
    && forall k :: 0 <= k < |es| ==> Step(ws[k], es[k], ws[k + 1], mmio, limit)
  }

  lemma {:induction false} RunKeepsInv(ws: seq<World>, es: seq<Event>, mmio: Word, limit: U32, k: nat)
    requires Run(ws, es, mmio, limit) && Inv(ws[0], mmio, limit) && k < |ws|
    ensures Inv(ws[k], mmio, limit)
  {
    hide Inv, Step;
    if k > 0 {
      RunKeepsInv(ws, es, mmio, limit, k - 1);
      var w, e, w' := ws[k - 1], es[k - 1], ws[k];
      assert Step(w, e, w', mmio, limit);
      StepKeepsInv(w, e, w', mmio, limit);
    }
  }

  /**
   In every run from boot, while a vcpu file is open the root in its VMCB is the root of the
   unfreed table of its VM, which is whole and in memory.
   */
  lemma {:induction false} OpenVcpuWalksLiveTable(ws: seq<World>, es: seq<Event>, mmio: Word, limit: U32, k: nat,
                                                  i: VmId, v: L.VcpuId)
    requires limit > 1 && Run(ws, es, mmio, limit) && ws[0] == Boot(ws[0].h) && k < |ws|
    requires i in ws[k].vms && v in ws[k].vms[i].life.vcpuFiles
    ensures var vm := ws[k].vms[i];
            && vm.life.freed == 0 && v in vm.vcpus && v !in vm.life.destroyed
            && RootOf(ws[k].h, vm.vcpus[v]) == Some(vm.table.root)
            && Tree(ws[k].h, vm.table) && vm.table.hidden == {LeafPath(mmio)}
            && vm.table.nodes.Values <= PagesOf(ws[k], TableOf(i))
  {
    BootInv(ws[0].h, mmio, limit);
    RunKeepsInv(ws, es, mmio, limit, k);
    OpenVcpu(ws[k].h, ws[k].vms[i], v, mmio);
  }

  /**
   The store at gpa changed one word of one page, which is a leaf of the table of VM i: no
   table, and no page of a vcpu, of another VM or of the kernel.
   */
  ghost predicate WroteOwnLeaf(w: World, i: VmId, gpa: Word, k: nat, value: Word, w': World) {
    && k < PTRS_PER_PAGE
    && i in w.vms && LeafPath(gpa) in w.vms[i].table.nodes
    && var page := w.vms[i].table.nodes[LeafPath(gpa)];
    && !IsTable(w.vms[i].table, page) && page in PagesOf(w, TableOf(i))
    && (forall holder :: holder != TableOf(i) ==> page !in PagesOf(w, holder))
    && w'.vms == w.vms && w'.h.Keys == w.h.Keys && page in w.h && w'.h[page] == w.h[page][k := value]
    && forall x :: x in w.h && x != page ==> w'.h[x] == w.h[x]
  }

  /** In every run from boot, every store of every running guest stays inside its VM. */
  lemma {:induction false} GuestStoresStayInside(ws: seq<World>, es: seq<Event>, mmio: Word, limit: U32, k: nat)
    requires limit > 1 && Run(ws, es, mmio, limit) && ws[0] == Boot(ws[0].h) && k < |es| && es[k].GuestWrite?
    ensures WroteOwnLeaf(ws[k], es[k].i, es[k].gpa, es[k].index, es[k].value, ws[k + 1])
  {
    BootInv(ws[0].h, mmio, limit);
    RunKeepsInv(ws, es, mmio, limit, k);
    StoreStaysInside(ws[k], es[k], ws[k + 1], mmio, limit);
  }

  lemma {:induction false} StoreStaysInside(w: World, e: Event, w': World, mmio: Word, limit: U32)
    requires Inv(w, mmio, limit) && Step(w, e, w', mmio, limit) && e.GuestWrite?
    ensures WroteOwnLeaf(w, e.i, e.gpa, e.index, e.value, w')
  {
    WriteHitsLeaf(w, e, w', mmio, limit);
    LeafWritten(w, e.i, e.gpa, e.index, e.value, w');
  }

  lemma {:induction false} LeafWritten(w: World, i: VmId, gpa: Word, k: nat, value: Word, w': World)
    requires Owned(w) && i in w.vms && w.vms[i].life.freed == 0 && LeafPath(gpa) in w.vms[i].table.nodes
    requires var page := w.vms[i].table.nodes[LeafPath(gpa)];
             !IsTable(w.vms[i].table, page) && page in w.h && k < PTRS_PER_PAGE
                 && w' == w.(h := SetEntry(w.h, page, k, value))
    ensures WroteOwnLeaf(w, i, gpa, k, value, w')
  {
    TablePageIsOwn(w, i, LeafPath(gpa));
  }

  lemma {:induction false} TablePageIsOwn(w: World, i: VmId, p: Path)
    requires Owned(w) && i in w.vms && w.vms[i].life.freed == 0 && p in w.vms[i].table.nodes
    ensures w.vms[i].table.nodes[p] in PagesOf(w, TableOf(i))
    ensures forall holder :: holder != TableOf(i) ==> w.vms[i].table.nodes[p] !in PagesOf(w, holder)
  {
    var page := w.vms[i].table.nodes[p];
    assert page in PagesOf(w, TableOf(i));
    forall holder | holder != TableOf(i)
      ensures page !in PagesOf(w, holder)
    {
      Apart(w, TableOf(i), holder, page);
    }
  }

  lemma {:induction false} WriteHitsLeaf(w: World, e: Event, w': World, mmio: Word, limit: U32)
    requires VmsOk(w, mmio) && Step(w, e, w', mmio, limit) && e.GuestWrite?
    ensures w.vms[e.i].life.freed == 0 && LeafPath(e.gpa) in w.vms[e.i].table.nodes
    ensures var t := w.vms[e.i].table;
            var page := t.nodes[LeafPath(e.gpa)];
            !IsTable(t, page) && page in w.h && e.index < PTRS_PER_PAGE
                && w' == w.(h := SetEntry(w.h, page, e.index, e.value))
  {
    OpenVcpu(w.h, w.vms[e.i], e.v, mmio);
    M.WalkEndsInLeaf(w.h, w.vms[e.i].table, e.gpa);
  }

  lemma {:induction false} VmInInv(w: World, i: VmId, mmio: Word, limit: U32)
    requires Inv(w, mmio, limit) && i in w.vms
    ensures VmOk(w.h, w.vms[i], mmio)
  {
    hide VmOk;
  }

  lemma {:induction false} ReachesLeaf(h: Heap, vm: Vm, v: L.VcpuId, gpa: Word, mmio: Word)
    requires VmOk(h, vm, mmio) && v in vm.life.running && LeafPath(gpa) in vm.table.nodes && Gpn(gpa) != Gpn(mmio)
    ensures v in vm.vcpus && RootOf(h, vm.vcpus[v]) == Some(vm.table.root)
    ensures Walk(h, vm.table.root, gpa) == Some(vm.table.nodes[LeafPath(gpa)]) && vm.table.nodes[LeafPath(gpa)] in h
  {
    OpenVcpu(h, vm, v, mmio);
    WalkFindsLeaves(h, vm.table, gpa);
    SameLeafIffSameGpn(gpa, mmio);
  }

  /** A running guest can store a word at any page that has been mapped, but for the MMIO page. */
  lemma {:induction false} RunningGuestStores(w: World, i: VmId, v: L.VcpuId, gpa: Word, k: nat, value: Word,
                                              mmio: Word, limit: U32)
    requires Inv(w, mmio, limit) && i in w.vms && v in w.vms[i].life.running && k < PTRS_PER_PAGE
    requires LeafPath(gpa) in w.vms[i].table.nodes && Gpn(gpa) != Gpn(mmio)
    ensures exists w' :: Step(w, GuestWrite(i, v, gpa, k, value), w', mmio, limit)
  {
    hide Inv, VmOk, Walk, SetEntry, RootOf;
    VmInInv(w, i, mmio, limit);
    ReachesLeaf(w.h, w.vms[i], v, gpa, mmio);
    var t := w.vms[i].table;
    var w' := w.(h := SetEntry(w.h, t.nodes[LeafPath(gpa)], k, value));
    assert Step(w, GuestWrite(i, v, gpa, k, value), w', mmio, limit);
  }

  /** Whatever a file, a thread or a vcpu of a VM can do next, the whole driver can do. */
  lemma {:induction false} LivesGoOn(w: World, i: VmId, l: L.Event, mmio: Word, limit: U32)
    requires i in w.vms && L.Enabled(w.vms[i].life, l) && !l.Create? && !l.DestroyVcpu? && !l.DestroyVm?
    ensures Step(w, Life(i, l), w.(vms := w.vms[i := w.vms[i].(life := L.Next(w.vms[i].life, l))]), mmio, limit)
  {
  }

  /** VM i is the same in both worlds, and reads the same at g. */
  ghost predicate Undisturbed(w: World, w': World, i: VmId, g: Word) {
    && i in w.vms && i in w'.vms && w'.vms[i] == w.vms[i]
    && var root := w.vms[i].table.root;
    && Walk(w'.h, root, g) == Walk(w.h, root, g)
    && M.Contents(w'.h, root, g) == M.Contents(w.h, root, g)
  }

  /** Noninterference: whatever others do, a VM stays as it is and reads the same at every address. */
  lemma {:induction false} OthersDoNotInterfere(ws: seq<World>, es: seq<Event>, mmio: Word, limit: U32, k: nat,
                                                i: VmId, g: Word)
    requires Run(ws, es, mmio, limit) && Inv(ws[0], mmio, limit) && k < |ws| && Alive(ws[0], i)
    requires forall n :: 0 <= n < k ==> !Concerns(es[n], i)
    ensures Undisturbed(ws[0], ws[k], i, g)
  {
    forall n | 0 <= n < k
      ensures Undisturbed(ws[n], ws[n + 1], i, g)
    {
      StaysAlive(ws, es, mmio, limit, n, i);
      RunKeepsInv(ws, es, mmio, limit, n);
      StepDoesNotInterfere(ws[n], es[n], ws[n + 1], mmio, limit, i, g);
    }
    UndisturbedChain(ws, k, i, g);
  }

  lemma {:induction false} UndisturbedChain(ws: seq<World>, k: nat, i: VmId, g: Word)
    requires k < |ws| && i in ws[0].vms && forall n :: 0 <= n < k ==> Undisturbed(ws[n], ws[n + 1], i, g)
    ensures Undisturbed(ws[0], ws[k], i, g)
  {
    if k > 0 {
      UndisturbedChain(ws, k - 1, i, g);
      assert Undisturbed(ws[k - 1], ws[k - 1 + 1], i, g);
    }
  }

  lemma {:induction false} StaysAlive(ws: seq<World>, es: seq<Event>, mmio: Word, limit: U32, k: nat, i: VmId)
    requires Run(ws, es, mmio, limit) && k < |ws| && Alive(ws[0], i)
    requires forall n :: 0 <= n < k ==> !Concerns(es[n], i)
    ensures Alive(ws[k], i)
  {
    if k > 0 {
      StaysAlive(ws, es, mmio, limit, k - 1, i);
      VmUnchanged(ws[k - 1], es[k - 1], ws[k], i, mmio, limit);
    }
  }

  lemma {:induction false} StepDoesNotInterfere(w: World, e: Event, w': World, mmio: Word, limit: U32, i: VmId, g: Word)
    requires Inv(w, mmio, limit) && Step(w, e, w', mmio, limit) && Alive(w, i) && !Concerns(e, i)
    ensures Undisturbed(w, w', i, g)
  {
    StepSparesVm(w, e, w', i, mmio, limit);
    SameReads(w.h, w'.h, w.vms[i], mmio, g);
  }

  lemma {:induction false} SameReads(h: Heap, h': Heap, vm: Vm, mmio: Word, g: Word)
    requires VmOk(h, vm, mmio) && vm.life.freed == 0 && SameOn(h, h', TablePages(vm))
    ensures Walk(h', vm.table.root, g) == Walk(h, vm.table.root, g)
    ensures M.Contents(h', vm.table.root, g) == M.Contents(h, vm.table.root, g)
  {
    TableFrame(Memory(h, vm), Memory(h', vm), mmio);
    M.SameTableSameWalk(h, h', vm.table, g);
    if Walk(h, vm.table.root, g).Some? {
      M.WalkEndsInLeaf(h, vm.table, g);
      assert Walk(h, vm.table.root, g).value in TablePages(vm);
    }
  }

  /** How many of the first k events are VM creations that fail. */
  function FailedCreations(es: seq<Event>, k: nat): nat
    requires k <= |es|
  {
    if k == 0 then 0 else FailedCreations(es, k - 1) + if es[k - 1].VmFails? then 1 else 0
  }

  /** Each of them leaves at most three pages. */
  lemma {:induction false} LeaksAreBounded(ws: seq<World>, es: seq<Event>, mmio: Word, limit: U32, k: nat)
    requires Run(ws, es, mmio, limit) && ws[0].leaked == {} && k < |ws|
    ensures |ws[k].leaked| <= 3 * FailedCreations(es, k)
  {
    if k > 0 {
      LeaksAreBounded(ws, es, mmio, limit, k - 1);
      assert Step(ws[k - 1], es[k - 1], ws[k], mmio, limit);
      OneLeak(ws[k - 1], es[k - 1], ws[k], mmio, limit);
    }
  }

  lemma {:induction false} OneLeak(w: World, e: Event, w': World, mmio: Word, limit: U32)
    requires Step(w, e, w', mmio, limit)
    ensures |w'.leaked| <= |w.leaked| + if e.VmFails? then 3 else 0
  {
    if e.VmFails? {
      N.AtMostThreeLeft(e.left, mmio);
      UnionSize(w.leaked, N.Rest(e.left));
    }
  }

  lemma UnionSize(a: set<Pfn>, b: set<Pfn>)
    ensures |a + b| <= |a| + |b|
  {
    assert a + b == a + (b - a);
    SubsetSize(b - a, b);
  }

  /**
   Once every VM is destroyed, the driver holds no page but those that failed creations left
   behind, at most three each.
   */
  lemma {:induction false} NothingIsLeft(ws: seq<World>, es: seq<Event>, mmio: Word, limit: U32, k: nat)
    requires limit > 1 && Run(ws, es, mmio, limit) && ws[0] == Boot(ws[0].h) && k < |ws|
    requires forall i :: i in ws[k].vms ==> ws[k].vms[i].life.freed > 0
    ensures ws[k].h.Keys == ws[k].kernel + ws[k].leaked
    ensures |ws[k].leaked| <= 3 * FailedCreations(es, k)
    ensures (forall n :: 0 <= n < k ==> !es[n].VmFails?) ==> ws[k].leaked == {}
  {
    LeaksAreBounded(ws, es, mmio, limit, k);
    BootInv(ws[0].h, mmio, limit);
    RunKeepsInv(ws, es, mmio, limit, k);
    var w := ws[k];
    forall x
      ensures x in w.h <==> x in w.kernel + w.leaked
    {
      if x in w.h {
        var holder :| x in PagesOf(w, holder);
        if holder != Leaked && holder != Kernel {
          NoVmHolds(w, holder, mmio);
        }
      }
      assert x in w.kernel ==> x in PagesOf(w, Kernel);
      assert x in w.leaked ==> x in PagesOf(w, Leaked);
    }
    if forall n :: 0 <= n < k ==> !es[n].VmFails? {
      LeaksOnlyOnFailure(ws, es, mmio, limit, k);
    }
  }

  lemma {:induction false} NoVmHolds(w: World, k: Holder, mmio: Word)
    requires VmsOk(w, mmio) && forall i :: i in w.vms ==> w.vms[i].life.freed > 0
    requires k != Leaked && k != Kernel
    ensures PagesOf(w, k) == {}
  {
    if k.VcpuOf? && k.i in w.vms && k.v in w.vms[k.i].vcpus && k.v !in w.vms[k.i].life.destroyed {
      LastVcpu(w.vms[k.i].life, k.v);
    }
  }

  lemma {:induction false} LeaksOnlyOnFailure(ws: seq<World>, es: seq<Event>, mmio: Word, limit: U32, k: nat)
    requires Run(ws, es, mmio, limit) && ws[0].leaked == {} && k < |ws|
    requires forall n :: 0 <= n < k ==> !es[n].VmFails?
    ensures ws[k].leaked == {}
  {
    if k > 0 {
      LeaksOnlyOnFailure(ws, es, mmio, limit, k - 1);
      assert Step(ws[k - 1], es[k - 1], ws[k], mmio, limit);
    }
  }

  /**
   In every run from boot, every vcpu ever created, live or long destroyed, has an ASID of
   its own, at least 2 and below the limit of the processor.
   */
  lemma {:induction false} AsidsAreUnique(ws: seq<World>, es: seq<Event>, mmio: Word, limit: U32, k: nat,
                                          i: VmId, v: L.VcpuId, j: VmId, u: L.VcpuId)
    requires limit > 1 && Run(ws, es, mmio, limit) && ws[0] == Boot(ws[0].h) && k < |ws|
    requires i in ws[k].vms && v in ws[k].vms[i].life.created && j in ws[k].vms && u in ws[k].vms[j].life.created
    ensures v in ws[k].vms[i].asids && u in ws[k].vms[j].asids
    ensures 2 <= ws[k].vms[i].asids[v] < limit
    ensures ws[k].vms[i].asids[v] == ws[k].vms[j].asids[u] ==> i == j && v == u
  {
    BootInv(ws[0].h, mmio, limit);
    RunKeepsInv(ws, es, mmio, limit, k);
    var a, b := ws[k].vms[i].asids[v], ws[k].vms[j].asids[u];
    assert HasAsid(ws[k], i, v, a) && HasAsid(ws[k], j, u, b);
  }
}
