/**
 What the emulator's run loop needs to know, on values: the processor running the guest on
 the memory that the driver has mapped so far, and how its entries end.
 */
module Emulation {
  import opened Words
  import opened Address
  import opened PageTable
  import opened NptCreation
  import opened WorldSwitch
  import opened VcpuRegisters
  import opened Ioio
  import opened IdealMachine
  import M = GuestMemory

  /** What the guest reads in all of its memory. */
  function View(h: Heap, root: Pfn): map<nat, Page> {
    map n: nat | n < TWO_36 :: M.Contents(h, root, PageAddress(n))
  }

  // The processor.

  /** The first address in order that the nested table does not translate. */
  function FirstFault(h: Heap, root: Pfn, touches: seq<Word>): Option<Word>
    decreases |touches|
  {
    if touches == [] then None
    else if Walk(h, root, touches[0]).None? then Some(touches[0])
    else FirstFault(h, root, touches[1..])
  }

  function WriteOne(h: Heap, root: Pfn, s: MemoryStore): Heap {
    match Walk(h, root, s.gpa)
    case Some(p) => if p in h then SetEntry(h, p, s.index, s.value) else h
    case None => h
  }

  function WriteMany(h: Heap, root: Pfn, stores: seq<MemoryStore>): Heap
    decreases |stores|
  {
    if stores == [] then h else WriteMany(WriteOne(h, root, stores[0]), root, stores[1..])
  }

  /** To the processor a device access is one more memory access, after the fetch. */
  function AllTouches(b: Board, i: Instruction, v: Vcpu): seq<Word> {
    if i.DeviceLoad? || i.DeviceStore? then Touches(i, v) + [b.mmioHawk] else Touches(i, v)
  }

  datatype Exited = Exited(cpu: Vcpu, h: Heap)

  function WithExit(v: Vcpu, code: nat, info1: Word, info2: Word): Vcpu {
    v.(vmcb := v.vmcb.(exit := ExitInfo(code, info1, info2)))
  }

  /**
   One entry of the guest with the trap flag set: it faults at the first missing page, with
   nothing changed, or is intercepted, or runs one instruction and traps.
   */
  function GuestRuns(b: Board, v: Vcpu, h: Heap, root: Pfn): Exited {
    var i := Decode(b, v, View(h, root));
    match FirstFault(h, root, AllTouches(b, i, v))
    case Some(gpa) => Exited(WithExit(v, SVM_EXIT_NPF, 0, gpa), h)
    case None => Executes(i, v, h, root)
  }

  function Executes(i: Instruction, v: Vcpu, h: Heap, root: Pfn): Exited {
    Exited(ExitCpu(i, v), if i.Other? && i.native.Runs? then WriteMany(h, root, i.native.stores) else h)
  }

  /** The vcpu after an instruction that faulted nowhere; a device access always faults. */
  function ExitCpu(i: Instruction, v: Vcpu): Vcpu {
    match i
    case Halt => WithExit(v, SVM_EXIT_HLT, 0, 0)
    case Other(Runs(_, cpu, _)) => WithExit(cpu, SVM_EXIT_DB, 0, 0)
    case Other(PortAccess(_, io, next)) => WithExit(v, SVM_EXIT_IOIO, Encode(io), next)
    case Other(Exits(code)) => WithExit(v, code, 0, 0)
    case _ => WithExit(v, 0, 0, 0)
  }

  // What the processor reports, with the codes of include/cpu.h:430-515.

  /** An intercepted HLT. */
  lemma {:induction false} HaltExits(b: Board, v: Vcpu, h: Heap, root: Pfn)
    requires ByteAt(View(h, root), Linear(v, 0)) == 0xf4 && Walk(h, root, Linear(v, 0)).Some?
    ensures GuestRuns(b, v, h, root) == Exited(WithExit(v, 0x78, 0, 0), h)
  {
    AllPresent(h, root, [Linear(v, 0)]);
  }

  /** IN and OUT on the device's port: the direction, the byte size, the port, and the next rip. */
  lemma {:induction false} PortExits(b: Board, v: Vcpu, h: Heap, root: Pfn, opcode: Byte8)
    requires ByteAt(View(h, root), Linear(v, 0)) == opcode && opcode in {0xec, 0xee}
    requires v.gctx.rdx % 0x1_0000 == b.pioHawk && Walk(h, root, Linear(v, 0)).Some?
    ensures var info1 := (if opcode == 0xec then 1 else 0) + 0x90 + 0x1_0000 * b.pioHawk;
            GuestRuns(b, v, h, root) == Exited(WithExit(v, 0x7b, info1, (v.vmcb.rip + 1) % TWO_64), h)
  {
    PortDecodes(b, v, View(h, root), opcode);
    hide Decode, ByteAt;
    AllPresent(h, root, [Linear(v, 0)]);
  }

  /** The moves to and from the device's address, which the table does not translate. */
  lemma {:induction false} MoveExits(b: Board, v: Vcpu, h: Heap, root: Pfn, opcode: Byte8)
    requires var view := View(h, root);
             ByteAt(view, Linear(v, 0)) == 0x67 && ByteAt(view, Linear(v, 1)) == opcode
             && ByteAt(view, Linear(v, 2)) == 0x02
    requires opcode in {0x88, 0x8a} && (v.vmcb.core.ds.base + v.gctx.rdx) % 0x1_0000_0000 == b.mmioHawk
    requires Walk(h, root, b.mmioHawk) == None && forall k: nat :: k < 3 ==> Walk(h, root, Linear(v, k)).Some?
    ensures GuestRuns(b, v, h, root) == Exited(WithExit(v, 0x400, 0, b.mmioHawk), h)
  {
    MoveDecodes(b, v, View(h, root), opcode);
    hide Decode, ByteAt, Linear, Walk, FirstFault;
    FetchedFirst(b, v, h, root);
  }

  lemma {:induction false} FetchedFirst(b: Board, v: Vcpu, h: Heap, root: Pfn)
    requires Walk(h, root, b.mmioHawk) == None && forall k: nat :: k < 3 ==> Walk(h, root, Linear(v, k)).Some?
    ensures FirstFault(h, root, [Linear(v, 0), Linear(v, 1), Linear(v, 2)] + [b.mmioHawk]) == Some(b.mmioHawk)
  {
    hide Walk, Linear;
    var code := [Linear(v, 0), Linear(v, 1), Linear(v, 2)];
    AllPresent(h, root, code);
    FaultBehind(h, root, code, b.mmioHawk);
  }

  lemma {:induction false} PortDecodes(b: Board, v: Vcpu, view: map<nat, Page>, opcode: Byte8)
    requires ByteAt(view, Linear(v, 0)) == opcode && opcode in {0xec, 0xee} && v.gctx.rdx % 0x1_0000 == b.pioHawk
    ensures Decode(b, v, view)
            == Other(PortAccess([], Io(opcode == 0xec, false, false, Byte, 1, b.pioHawk), (v.vmcb.rip + 1) % TWO_64))
  {
  }

  lemma {:induction false} MoveDecodes(b: Board, v: Vcpu, view: map<nat, Page>, opcode: Byte8)
    requires ByteAt(view, Linear(v, 0)) == 0x67 && ByteAt(view, Linear(v, 1)) == opcode
    requires ByteAt(view, Linear(v, 2)) == 0x02
    requires opcode in {0x88, 0x8a} && (v.vmcb.core.ds.base + v.gctx.rdx) % 0x1_0000_0000 == b.mmioHawk
    ensures Decode(b, v, view) == if opcode == 0x88 then DeviceStore else DeviceLoad
  {
    hide ByteAt, Linear;
  }

  /** An instruction runs only if every page that it touches is present, and traps with #DB. */
  lemma {:induction false} RunsWhenPresent(b: Board, v: Vcpu, h: Heap, root: Pfn)
    requires GuestRuns(b, v, h, root).cpu.vmcb.exit.code == 0x41
    ensures var i := Decode(b, v, View(h, root));
            && i.Other? && i.native.Runs?
            && GuestRuns(b, v, h, root).cpu == WithExit(i.native.cpu, 0x41, 0, 0)
            && Walk(h, root, Linear(v, 0)).Some?
            && (forall a :: a in i.native.touches ==> Walk(h, root, a).Some?)
            && (forall st :: st in i.native.stores ==> Walk(h, root, st.gpa).Some?)
  {
    var i := Decode(b, v, View(h, root));
    hide Decode;
    FaultIsFirst(h, root, AllTouches(b, i, v));
    var touches := Touches(i, v);
    assert touches[0] == Linear(v, 0);
    forall st | st in i.native.stores
      ensures Walk(h, root, st.gpa).Some?
    {
      StoreIsTouched(i, v, st);
    }
  }

  lemma {:induction false} AllPresent(h: Heap, root: Pfn, touches: seq<Word>)
    requires forall a :: a in touches ==> Walk(h, root, a).Some?
    ensures FirstFault(h, root, touches) == None
  {
    FaultIsFirst(h, root, touches);
  }

  lemma {:induction false} FaultBehind(h: Heap, root: Pfn, touches: seq<Word>, a: Word)
    requires FirstFault(h, root, touches) == None && Walk(h, root, a) == None
    ensures FirstFault(h, root, touches + [a]) == Some(a)
    decreases |touches|
  {
    if touches == [] {
      assert touches + [a] == [a];
    } else {
      assert (touches + [a])[1..] == touches[1..] + [a];
      FaultBehind(h, root, touches[1..], a);
    }
  }

  lemma {:induction false} FaultIsFirst(h: Heap, root: Pfn, touches: seq<Word>)
    ensures var f := FirstFault(h, root, touches);
            if f.Some? then f.value in touches && Walk(h, root, f.value).None?
            else forall a :: a in touches ==> Walk(h, root, a).Some?
    decreases |touches|
  {
    if touches != [] {
      FaultIsFirst(h, root, touches[1..]);
      assert touches == [touches[0]] + touches[1..];
    }
  }

  // Memory.

  lemma {:induction false} ViewAt(h: Heap, t: Npt, gpa: Word)
    requires Tree(h, t)
    ensures PageIn(View(h, t.root), gpa) == M.Contents(h, t.root, gpa)
  {
    GpnOfPage(Gpn(gpa));
    M.SameWalk(h, t, gpa, PageAddress(Gpn(gpa)));
  }

  lemma GpnOfPage(n: PageNumber)
    ensures Gpn(PageAddress(n)) == n
  {
  }

  /** Demand paging between two states: nothing that anyone reads changes, and no page goes away. */
  ghost predicate Paged(h: Heap, t: Npt, h': Heap, t': Npt) {
    && Tree(h', t') && t'.root == t.root && t'.hidden == t.hidden
    && View(h', t'.root) == View(h, t.root)
    && t.nodes.Keys <= t'.nodes.Keys
  }

  lemma {:induction false} CreationPages(h: Heap, t: Npt, gpa: Word, h': Heap, t': Npt, r: Outcome)
    requires Tree(h, t) && Created(h, t, gpa, false, h', t', r)
    ensures Paged(h, t, h', t')
  {
    CreatedNodes(h, t, gpa, false, h', t', r);
    forall n: PageNumber
      ensures M.Contents(h', t'.root, PageAddress(n)) == M.Contents(h, t.root, PageAddress(n))
    {
      M.CreationKeepsContents(h, t, gpa, h', t', r, PageAddress(n));
    }
    SameView(h, t.root, h', t'.root);
  }

  lemma {:induction false} SameView(h: Heap, root: Pfn, h': Heap, root': Pfn)
    requires forall n: PageNumber :: M.Contents(h', root', PageAddress(n)) == M.Contents(h, root, PageAddress(n))
    ensures View(h', root') == View(h, root)
  {
  }

  /** A store through the nested table is a store to the page the guest named. */
  lemma {:induction false} WriteOneIsStore(h: Heap, t: Npt, s: MemoryStore)
    requires Tree(h, t) && Walk(h, t.root, s.gpa).Some?
    ensures Tree(WriteOne(h, t.root, s), t)
    ensures View(WriteOne(h, t.root, s), t.root) == StoreIn(View(h, t.root), s)
  {
    M.StoreKeepsTree(h, t, s.gpa, s.index, s.value);
    var h' := WriteOne(h, t.root, s);
    ViewAt(h, t, s.gpa);
    forall n: PageNumber
      ensures M.Contents(h', t.root, PageAddress(n))
              == if n == Gpn(s.gpa) then M.Contents(h, t.root, s.gpa)[s.index := s.value]
                  else M.Contents(h, t.root, PageAddress(n))
    {
      M.StoreChangesOnePage(h, t, s.gpa, s.index, s.value, PageAddress(n));
      GpnOfPage(n);
    }
    OnePageView(h, h', t.root, s);
  }

  lemma {:induction false} OnePageView(h: Heap, h': Heap, root: Pfn, s: MemoryStore)
    requires PageIn(View(h, root), s.gpa) == M.Contents(h, root, s.gpa)
    requires forall n: PageNumber :: M.Contents(h', root, PageAddress(n))
               == if n == Gpn(s.gpa) then M.Contents(h, root, s.gpa)[s.index := s.value]
                   else M.Contents(h, root, PageAddress(n))
    ensures View(h', root) == StoreIn(View(h, root), s)
  {
    var view, view' := View(h, root), View(h', root);
    forall n: PageNumber
      ensures view'[n] == if n == Gpn(s.gpa) then PageIn(view, s.gpa)[s.index := s.value] else view[n]
    {
    }
    OneKeyChanged(view, view', Gpn(s.gpa), PageIn(view, s.gpa)[s.index := s.value]);
  }

  lemma OneKeyChanged(m: map<nat, Page>, m': map<nat, Page>, k: nat, page: Page)
    requires k in m && m'.Keys == m.Keys && forall n :: n in m ==> m'[n] == if n == k then page else m[n]
    ensures m' == m[k := page]
  {
  }

  lemma {:induction false} WriteManyIsStores(h: Heap, t: Npt, stores: seq<MemoryStore>)
    requires Tree(h, t) && forall s :: s in stores ==> Walk(h, t.root, s.gpa).Some?
    ensures Tree(WriteMany(h, t.root, stores), t)
    ensures View(WriteMany(h, t.root, stores), t.root) == StoreEach(View(h, t.root), stores)
    decreases |stores|
  {
    if stores != [] {
      var h' := WriteOne(h, t.root, stores[0]);
      WriteOneIsStore(h, t, stores[0]);
      forall s | s in stores[1..]
        ensures Walk(h', t.root, s.gpa).Some?
      {
        M.SameTableSameWalk(h, h', t, s.gpa);
      }
      WriteManyIsStores(h', t, stores[1..]);
    }
  }

  /** The guest reads mem in its memory: `View(h, root) == mem`, page by page. */
  ghost predicate Showing(h: Heap, root: Pfn, mem: map<nat, Page>) {
    && (forall n: nat :: n in mem <==> n < TWO_36)
    && (forall n: PageNumber {:trigger PageAddress(n)} :: n in mem ==> mem[n] == M.Contents(h, root, PageAddress(n)))
  }

  lemma {:induction false} ShowingIsView(h: Heap, root: Pfn, mem: map<nat, Page>)
    ensures Showing(h, root, mem) <==> View(h, root) == mem
  {
    var view := View(h, root);
    if Showing(h, root, mem) {
      forall n: nat | n < TWO_36
        ensures view[n] == mem[n]
      {
        assert view[n] == M.Contents(h, root, PageAddress(n));
      }
      assert view.Keys == mem.Keys;
    }
  }

  /** The nested table shows the guest the memory of the ideal machine, and hides the MMIO page. */
  ghost predicate SameMemory(b: Board, h: Heap, t: Npt, mem: map<nat, Page>) {
    Tree(h, t) && t.hidden == {LeafPath(b.mmioHawk)} && Showing(h, t.root, mem)
  }

  /** Creating a page keeps the memory that the guest sees, fails for the MMIO page, and shows the page. */
  lemma {:induction false} CreationShows(b: Board, h: Heap, t: Npt, gpa: Word, h': Heap, t': Npt, r: Outcome,
                                         mem: map<nat, Page>)
    requires SameMemory(b, h, t, mem) && Created(h, t, gpa, false, h', t', r)
    ensures SameMemory(b, h', t', mem) && t.nodes.Keys <= t'.nodes.Keys && t'.root == t.root
    ensures r == Panicked <==> OnMmioPage(b, gpa)
    ensures r.Mapped? ==> LeafPath(gpa) in t'.nodes && r.page in h' && h'[r.page] == PageIn(mem, gpa)
  {
    CreationPages(h, t, gpa, h', t', r);
    ShowingIsView(h, t.root, mem);
    ShowingIsView(h', t'.root, mem);
    SameLeafIffSameGpn(gpa, b.mmioHawk);
    PanicsIffHidden(h, t, gpa, false, h', t', r);
    if r.Mapped? {
      CreatedShows(h, t, gpa, h', t', r.page);
    }
  }

  /** The page that a creation returns holds what the guest reads there. */
  lemma {:induction false} CreatedShows(h: Heap, t: Npt, gpa: Word, h': Heap, t': Npt, p: Pfn)
    requires Tree(h, t) && Created(h, t, gpa, false, h', t', Mapped(p))
    ensures LeafPath(gpa) in t'.nodes && p in h' && h'[p] == PageIn(View(h, t.root), gpa)
  {
    CreatedNodes(h, t, gpa, false, h', t', Mapped(p));
    CreationPages(h, t, gpa, h', t', Mapped(p));
    CreatedTranslation(h, t, gpa, false, h', t', Mapped(p), gpa);
    ViewAt(h', t', gpa);
  }

  lemma {:induction false} StoresPresent(h: Heap, root: Pfn, n: Native, v: Vcpu)
    requires n.Runs? && forall a :: a in Touches(Other(n), v) ==> Walk(h, root, a).Some?
    ensures forall st :: st in n.stores ==> Walk(h, root, st.gpa).Some?
  {
    forall st | st in n.stores
      ensures Walk(h, root, st.gpa).Some?
    {
      StoreIsTouched(Other(n), v, st);
    }
  }

  lemma {:induction false} StoreIsTouched(i: Instruction, v: Vcpu, st: MemoryStore)
    requires i.Other? && i.native.Runs? && st in i.native.stores
    ensures st.gpa in Touches(i, v)
  {
    var k :| 0 <= k < |i.native.stores| && i.native.stores[k] == st;
    assert StoreAddresses(i.native.stores)[k] == st.gpa;
  }

  // How an entry ends.

  /** The guest stops at a page that is missing, at the MMIO page, or nowhere. */
  datatype Stop = Missing(gpa: Word) | Intercept(gpa: Word) | Executed

  function StopOf(b: Board, fault: Option<Word>): Stop {
    match fault
    case None => Executed
    case Some(gpa) => if OnMmioPage(b, gpa) then Intercept(gpa) else Missing(gpa)
  }

  /** The first address in order that lies in the MMIO page. */
  function FirstOnMmio(b: Board, touches: seq<Word>): Option<Word>
    decreases |touches|
  {
    if touches == [] then None
    else if OnMmioPage(b, touches[0]) then Some(touches[0])
    else FirstOnMmio(b, touches[1..])
  }

  lemma {:induction false} NoMmio(b: Board, touches: seq<Word>)
    requires forall a :: a in touches ==> !OnMmioPage(b, a)
    ensures FirstOnMmio(b, touches) == None
    ensures FirstOnMmio(b, touches + [b.mmioHawk]) == Some(b.mmioHawk)
    decreases |touches|
  {
    if touches != [] {
      NoMmio(b, touches[1..]);
      assert (touches + [b.mmioHawk])[1..] == touches[1..] + [b.mmioHawk];
    }
  }

  lemma {:induction false} FirstTouch(b: Board, h: Heap, t: Npt, mem: map<nat, Page>, gpa: Word)
    requires SameMemory(b, h, t, mem)
    ensures Walk(h, t.root, gpa).None? ==> OnMmioPage(b, gpa) || LeafPath(gpa) !in t.nodes
    ensures OnMmioPage(b, gpa) ==> Walk(h, t.root, gpa).None?
  {
    WalkFindsLeaves(h, t, gpa);
    SameLeafIffSameGpn(gpa, b.mmioHawk);
  }

  /** Unless a page is missing, the guest gets as far as the MMIO page lets it. */
  lemma {:induction false} FaultOrMmio(b: Board, h: Heap, t: Npt, mem: map<nat, Page>, touches: seq<Word>)
    requires SameMemory(b, h, t, mem)
    ensures var stop := StopOf(b, FirstFault(h, t.root, touches));
            if stop.Missing? then stop.gpa in touches && !OnMmioPage(b, stop.gpa) && LeafPath(stop.gpa) !in t.nodes
            else stop == StopOf(b, FirstOnMmio(b, touches))
    decreases |touches|
  {
    if touches != [] {
      FirstTouch(b, h, t, mem, touches[0]);
      hide Walk, OnMmioPage, SameMemory;
      FaultOrMmio(b, h, t, mem, touches[1..]);
      assert touches == [touches[0]] + touches[1..];
    }
  }

  /** The vcpu when the guest stops with every ordinary page present. */
  function FinalCpu(b: Board, i: Instruction, v: Vcpu): Vcpu {
    match FirstOnMmio(b, AllTouches(b, i, v))
    case Some(gpa) => WithExit(v, SVM_EXIT_NPF, 0, gpa)
    case None => ExitCpu(i, v)
  }

  function FinalMem(b: Board, i: Instruction, v: Vcpu, mem: map<nat, Page>): map<nat, Page> {
    if FirstOnMmio(b, AllTouches(b, i, v)).None? && i.Other? && i.native.Runs? then StoreEach(mem, i.native.stores)
    else mem
  }

  /** Every entry ends at a missing page, which is then not in the table, or as if none were missing. */
  lemma {:induction false} EntryEnds(b: Board, v: Vcpu, h: Heap, t: Npt, mem: map<nat, Page>)
    requires SameMemory(b, h, t, mem)
    ensures var i := Decode(b, v, mem);
            var x := GuestRuns(b, v, h, t.root);
            var stop := StopOf(b, FirstFault(h, t.root, AllTouches(b, i, v)));
            if stop.Missing? then
              && x == Exited(WithExit(v, SVM_EXIT_NPF, 0, stop.gpa), h) && stop.gpa in Touches(i, v)
              && !OnMmioPage(b, stop.gpa) && LeafPath(stop.gpa) !in t.nodes
            else x.cpu == FinalCpu(b, i, v) && SameMemory(b, x.h, t, FinalMem(b, i, v, mem))
  {
    hide Decode;
    var i := Decode(b, v, mem);
    ShowingIsView(h, t.root, mem);
    FaultOrMmio(b, h, t, mem, AllTouches(b, i, v));
    if FirstFault(h, t.root, AllTouches(b, i, v)).None? && i.Other? && i.native.Runs? {
      NativeStores(b, i.native, v, h, t, mem);
    }
  }

  lemma {:induction false} NativeStores(b: Board, n: Native, v: Vcpu, h: Heap, t: Npt, mem: map<nat, Page>)
    requires SameMemory(b, h, t, mem) && n.Runs? && FirstFault(h, t.root, Touches(Other(n), v)).None?
    ensures SameMemory(b, WriteMany(h, t.root, n.stores), t, StoreEach(mem, n.stores))
  {
    FaultIsFirst(h, t.root, Touches(Other(n), v));
    StoresPresent(h, t.root, n, v);
    ShowingIsView(h, t.root, mem);
    WriteManyIsStores(h, t, n.stores);
    ShowingIsView(WriteMany(h, t.root, n.stores), t.root, StoreEach(mem, n.stores));
  }
}
