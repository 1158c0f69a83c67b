/**
 The world switch: driver/vcpu_run.S instruction by instruction, the processor's VMRUN,
 VMLOAD and VMSAVE around it, and the C function that calls it (driver/cpu.c:53-116).

 The guest is any function from the state it is entered with to the state it leaves
 behind; it may write memory only at addresses that it owns.  VMCBs and host save areas
 are kernel pages, which module Isolation shows to be out of its reach.
 */
module WorldSwitch {
  import opened Words
  import opened PageTable

  datatype Reg = RAX | RBX | RCX | RDX | RDI | RSI | RBP | RSP | R8 | R9 | R10 | R11 | R12 | R13 | R14 | R15

  /** Registers and memory hold machine words; kernel stacks and contexts never wrap around the address space. */
  type Regs = map<Reg, int>
  type Memory = map<int, int>

  function Get(regs: Regs, r: Reg): int {
    if r in regs then regs[r] else 0
  }

  /** Memory in 8-byte words at aligned addresses. */
  function Read(mem: Memory, a: int): int {
    if a in mem then mem[a] else 0
  }

  datatype Segment = Segment(selector: nat, attrib: nat, limit: nat, base: Word)

  /** The state that VMRUN and #VMEXIT exchange besides rax, rsp and rip. */
  datatype Core = Core(es: Segment, cs: Segment, ss: Segment, ds: Segment, gdtr: Segment, idtr: Segment,
                       efer: Word, cr0: Word, cr3: Word, cr4: Word, rflags: Word)

  /** The state that only VMLOAD and VMSAVE move. */
  datatype Extra = Extra(fs: Segment, gs: Segment, tr: Segment, ldtr: Segment, kernelGsBase: Word, star: Word,
                         lstar: Word, cstar: Word, sfmask: Word, sysenterCs: Word, sysenterEsp: Word, sysenterEip: Word)

  datatype ExitInfo = ExitInfo(code: nat, info1: Word, info2: Word)

  datatype Vmcb = Vmcb(core: Core, extra: Extra, rax: int, rsp: int, rip: int, nestedCr3: Word, asid: nat,
                       exit: ExitInfo)

  datatype HostSave = HostSave(core: Core, rax: int, rsp: int)

  /** What a page that the processor itself uses holds: a guest's state, or the host's while a guest runs. */
  datatype Frame = VmcbFrame(vmcb: Vmcb) | SaveFrame(save: HostSave)

  type Frames = map<int, Frame>

  predicate HasVmcb(frames: Frames, pa: int) {
    pa in frames && frames[pa].VmcbFrame?
  }

  function VmcbAt(frames: Frames, pa: int): Vmcb
    requires HasVmcb(frames, pa)
  {
    frames[pa].vmcb
  }

  function NoCore(): Core {
    var none := Segment(0, 0, 0, 0);
    Core(none, none, none, none, none, none, 0, 0, 0, 0, 0)
  }

  /** The host state found at an address; a page that is no longer a save area yields a useless one. */
  function SaveAt(frames: Frames, pa: int): HostSave {
    if pa in frames && frames[pa].SaveFrame? then frames[pa].save
    else HostSave(NoCore(), 0, 0)
  }

  predicate SameFrame(f: Frames, g: Frames, pa: int) {
    (pa in f <==> pa in g) && (pa in f ==> f[pa] == g[pa])
  }

  /** A processor in host mode; VM_HSAVE_PA points to a page, which may be any. */
  datatype Machine = Machine(regs: Regs, rip: int, mem: Memory, core: Core, extra: Extra, gif: bool,
                             hsavePa: int, frames: Frames)

  /** What the guest is entered with and what it leaves, VM_HSAVE_PA included. */
  datatype GuestState = GuestState(regs: Regs, rip: int, core: Core, extra: Extra, mem: Memory, frames: Frames,
                                   hsavePa: int, exit: ExitInfo)

  type Guest = GuestState -> GuestState

  datatype Instr =
    | Store(src: Reg, off: nat, base: Reg)
    | Load(off: nat, base: Reg, dst: Reg)
    | Move(src: Reg, dst: Reg)
    | Set(dst: Reg, value: int)
    | Push(src: Reg)
    | Pop(dst: Reg)
    | Call(back: int)
    | Ret
    | VmLoad | VmRun | VmSave
    | Clgi | Stgi
    | SetHsave(pa: int)

  /**
   VMRUN up to and including #VMEXIT (section 15.5.1 of the AMD64 manual, Volume 2): the host's
   state goes to the page that VM_HSAVE_PA names, and what comes back is found on the page
   that it names then; the guest may have changed either.
   */
  function RunGuest(m: Machine, guest: Guest): Machine
    requires HasVmcb(m.frames, Get(m.regs, RAX))
  {
    var pa := Get(m.regs, RAX);
    var out := guest(EntryState(m));
    var frames := out.frames[pa := VmcbFrame(ExitVmcb(m, out))];
    var host := SaveAt(frames, out.hsavePa);
    m.(regs := out.regs[RAX := host.rax][RSP := host.rsp], mem := out.mem, core := host.core, extra := out.extra,
       gif := false, hsavePa := out.hsavePa, frames := frames)
  }

  /** The guest's state is written into its VMCB. */
  function ExitVmcb(m: Machine, out: GuestState): Vmcb
    requires HasVmcb(m.frames, Get(m.regs, RAX))
  {
    var pa := Get(m.regs, RAX);
    var vmcb := if HasVmcb(out.frames, pa) then VmcbAt(out.frames, pa) else VmcbAt(m.frames, pa);
    vmcb.(core := out.core, rax := Get(out.regs, RAX), rsp := Get(out.regs, RSP), rip := out.rip, exit := out.exit)
  }

  function EntryState(m: Machine): GuestState
    requires HasVmcb(m.frames, Get(m.regs, RAX))
  {
    var pa := Get(m.regs, RAX);
    var vmcb := VmcbAt(m.frames, pa);
    var saved := m.frames[m.hsavePa := SaveFrame(HostSave(m.core, pa, Get(m.regs, RSP)))];
    GuestState(m.regs[RAX := vmcb.rax][RSP := vmcb.rsp], vmcb.rip, vmcb.core, m.extra, m.mem, saved, m.hsavePa,
               vmcb.exit)
  }

  /** VMSAVE. */
  function SaveExtra(frames: Frames, pa: int, extra: Extra): Frames
    requires HasVmcb(frames, pa)
  {
    frames[pa := VmcbFrame(VmcbAt(frames, pa).(extra := extra))]
  }

  function Step(m: Machine, i: Instr, guest: Guest): Option<Machine> {
    match i
    case Store(src, off, base) => Some(m.(mem := m.mem[Get(m.regs, base) + off := Get(m.regs, src)]))
    case Load(off, base, dst) => Some(m.(regs := m.regs[dst := Read(m.mem, Get(m.regs, base) + off)]))
    case Move(src, dst) => Some(m.(regs := m.regs[dst := Get(m.regs, src)]))
    case Set(dst, value) => Some(m.(regs := m.regs[dst := value]))
    case Push(src) =>
      var sp := Get(m.regs, RSP) - 8;
      Some(m.(regs := m.regs[RSP := sp], mem := m.mem[sp := Get(m.regs, src)]))
    case Pop(dst) =>
      var sp := Get(m.regs, RSP);
      Some(m.(regs := m.regs[RSP := sp + 8][dst := Read(m.mem, sp)]))
    case Call(back) =>
      var sp := Get(m.regs, RSP) - 8;
      Some(m.(regs := m.regs[RSP := sp], mem := m.mem[sp := back]))
    case Ret =>
      var sp := Get(m.regs, RSP);
      Some(m.(regs := m.regs[RSP := sp + 8], rip := Read(m.mem, sp)))
    case VmLoad =>
      if HasVmcb(m.frames, Get(m.regs, RAX)) then Some(m.(extra := VmcbAt(m.frames, Get(m.regs, RAX)).extra)) else None
    case VmSave =>
      var pa := Get(m.regs, RAX);
      if HasVmcb(m.frames, pa) then Some(m.(frames := SaveExtra(m.frames, pa, m.extra))) else None
    case VmRun =>
      if HasVmcb(m.frames, Get(m.regs, RAX)) then Some(RunGuest(m, guest)) else None
    case Clgi => Some(m.(gif := false))
    case Stgi => Some(m.(gif := true))
    case SetHsave(pa) => Some(m.(hsavePa := pa))
  }

  function Exec(m: Machine, code: seq<Instr>, guest: Guest): Option<Machine>
    decreases |code|
  {
    if code == [] then Some(m)
    else match Step(m, code[0], guest)
      case None => None
      case Some(m') => Exec(m', code[1..], guest)
  }

  lemma {:induction false} ExecConcat(m: Machine, a: seq<Instr>, b: seq<Instr>, guest: Guest)
    requires Exec(m, a, guest).Some?
    ensures Exec(m, a + b, guest) == Exec(Exec(m, a, guest).value, b, guest)
    decreases |a|
  {
    if a == [] {
      assert a + b == b;
    } else {
      assert (a + b)[1..] == a[1..] + b;
      ExecConcat(Step(m, a[0], guest).value, a[1..], b, guest);
    }
  }

  // Register contexts.

  /** The offset of a register in `struct context` (include/vcpu_run.h). */
  function Offset(r: Reg): nat {
    match r
    case RBX => 8 case RCX => 16 case RDX => 24 case RDI => 32 case RSI => 40 case RBP => 48
    case R8 => 56 case R9 => 64 case R10 => 72 case R11 => 80 case R12 => 88 case R13 => 96
    case R14 => 104 case R15 => 112
    case RAX => 120 case RSP => 128
  }

  function Slot(base: int, r: Reg): int {
    base + Offset(r)
  }

  const HOST_REGS: seq<Reg> := [RBX, RCX, RBP, R8, R9, R10, R11, R12, R13, R14, R15]
  const HOST_REGS_BACK: seq<Reg> := [R15, R14, R13, R12, R11, R10, R9, R8, RBP, RCX, RBX]
  const GUEST_REGS: seq<Reg> := [RBX, RCX, RDX, RDI, RSI, RBP, R8, R9, R10, R11, R12, R13, R14, R15]

  function Stores(rs: seq<Reg>, base: Reg): (code: seq<Instr>)
    ensures |code| == |rs|
  {
    if rs == [] then [] else [Store(rs[0], Offset(rs[0]), base)] + Stores(rs[1..], base)
  }

  function Loads(rs: seq<Reg>, base: Reg): (code: seq<Instr>)
    ensures |code| == |rs|
  {
    if rs == [] then [] else [Load(Offset(rs[0]), base, rs[0])] + Loads(rs[1..], base)
  }

  function StoreAll(mem: Memory, rs: seq<Reg>, base: int, regs: Regs): Memory
    decreases |rs|
  {
    if rs == [] then mem else StoreAll(mem[Slot(base, rs[0]) := Get(regs, rs[0])], rs[1..], base, regs)
  }

  function LoadAll(regs: Regs, rs: seq<Reg>, base: int, mem: Memory): Regs
    decreases |rs|
  {
    if rs == [] then regs else LoadAll(regs[rs[0] := Read(mem, Slot(base, rs[0]))], rs[1..], base, mem)
  }

  lemma {:induction false} ExecStores(m: Machine, rs: seq<Reg>, base: Reg, guest: Guest)
    ensures Exec(m, Stores(rs, base), guest) == Some(m.(mem := StoreAll(m.mem, rs, Get(m.regs, base), m.regs)))
    decreases |rs|
  {
    if rs != [] {
      var m1 := m.(mem := m.mem[Slot(Get(m.regs, base), rs[0]) := Get(m.regs, rs[0])]);
      assert Step(m, Stores(rs, base)[0], guest) == Some(m1);
      assert Stores(rs, base)[1..] == Stores(rs[1..], base);
      ExecStores(m1, rs[1..], base, guest);
    }
  }

  lemma {:induction false} ExecLoads(m: Machine, rs: seq<Reg>, base: Reg, guest: Guest)
    requires base !in rs
    ensures Exec(m, Loads(rs, base), guest) == Some(m.(regs := LoadAll(m.regs, rs, Get(m.regs, base), m.mem)))
    decreases |rs|
  {
    if rs != [] {
      var m1 := m.(regs := m.regs[rs[0] := Read(m.mem, Slot(Get(m.regs, base), rs[0]))]);
      assert Step(m, Loads(rs, base)[0], guest) == Some(m1);
      assert Loads(rs, base)[1..] == Loads(rs[1..], base);
      assert Get(m1.regs, base) == Get(m.regs, base);
      ExecLoads(m1, rs[1..], base, guest);
    }
  }

  /** Storing registers into a context writes their slots and nothing else. */
  lemma {:induction false} StoredSlot(mem: Memory, rs: seq<Reg>, base: int, regs: Regs, r: Reg)
    ensures r in rs ==> Read(StoreAll(mem, rs, base, regs), Slot(base, r)) == Get(regs, r)
    ensures r !in rs ==> Read(StoreAll(mem, rs, base, regs), Slot(base, r)) == Read(mem, Slot(base, r))
    decreases |rs|
  {
    if rs != [] {
      StoredSlot(mem[Slot(base, rs[0]) := Get(regs, rs[0])], rs[1..], base, regs, r);
    }
  }

  lemma {:induction false} StoredElsewhere(mem: Memory, rs: seq<Reg>, base: int, regs: Regs, a: int)
    requires forall r :: r in rs ==> a != Slot(base, r)
    ensures Read(StoreAll(mem, rs, base, regs), a) == Read(mem, a)
    decreases |rs|
  {
    if rs != [] {
      StoredElsewhere(mem[Slot(base, rs[0]) := Get(regs, rs[0])], rs[1..], base, regs, a);
    }
  }

  /** Loading registers from a context sets these registers and nothing else. */
  lemma {:induction false} LoadedReg(regs: Regs, rs: seq<Reg>, base: int, mem: Memory, r: Reg)
    ensures Get(LoadAll(regs, rs, base, mem), r) == if r in rs then Read(mem, Slot(base, r)) else Get(regs, r)
    decreases |rs|
  {
    if rs != [] {
      LoadedReg(regs[rs[0] := Read(mem, Slot(base, rs[0]))], rs[1..], base, mem, r);
    }
  }

  // driver/vcpu_run.S.

  /** Saving the host's references and taking the guest's context (lines 29-34). */
  function PushHandles(): seq<Instr> {
    [Push(RSI), Push(RDI), Push(RDX), Move(RDI, RAX)]
  }

  /** The code up to the guest (lines 18-52), for these lists of host and guest registers. */
  function EnterCode(hs: seq<Reg>, gs: seq<Reg>): seq<Instr> {
    Stores(hs, RSI) + (PushHandles() + (Loads(gs, RAX) + [Pop(RAX), VmLoad]))
  }

  /** The code after the guest (lines 54-87). */
  function LeaveCode(gs: seq<Reg>, back: seq<Reg>): seq<Instr> {
    [VmSave, Pop(RAX)] + (Stores(gs, RAX) + ([Pop(RSI)] + (Loads(back, RSI) + [Ret])))
  }

  function SwitchCode(hs: seq<Reg>, gs: seq<Reg>, back: seq<Reg>): seq<Instr> {
    EnterCode(hs, gs) + ([VmRun] + LeaveCode(gs, back))
  }

  /** `_yakvm_vcpu_run` (driver/vcpu_run.S:15-88). */
  function VcpuRunCode(): seq<Instr> {
    SwitchCode(HOST_REGS, GUEST_REGS, HOST_REGS_BACK)
  }

  /** Registers that have a slot in a context. */
  predicate InContext(rs: seq<Reg>) {
    RAX !in rs && RSP !in rs
  }

  /** The offsets of include/vcpu_run.h: after the VMCB pointer, the registers follow each other in this order. */
  lemma ContextLayout(base: int, k: nat)
    requires k < 14
    ensures var order := [RBX, RCX, RDX, RDI, RSI, RBP, R8, R9, R10, R11, R12, R13, R14, R15];
            Slot(base, order[k]) == base + 8 * (k + 1)
  {
  }

  lemma {:induction false} SlotInside(base: int, r: Reg)
    requires r != RAX && r != RSP
    ensures base < Slot(base, r) < base + 120
  {
  }

  // What the switch needs of its surroundings.

  /** The contexts, the stack words in use, the VMCB, the save area and the guest's memory are apart from each other. */
  ghost predicate Layout(m: Machine, gctx: int, hctx: int, pa: int, owned: set<int>) {
    && Get(m.regs, RDI) == gctx && Get(m.regs, RSI) == hctx && Get(m.regs, RDX) == pa && HasVmcb(m.frames, pa)
    && Apart(gctx, gctx + 120, hctx, hctx + 120)
    && Apart(gctx, gctx + 120, Get(m.regs, RSP) - 24, Get(m.regs, RSP) + 8)
    && Apart(hctx, hctx + 120, Get(m.regs, RSP) - 24, Get(m.regs, RSP) + 8)
    && pa !in owned && m.hsavePa !in owned && m.hsavePa != pa
    && (forall a :: a in owned ==> !In(a, gctx, gctx + 120) && !In(a, hctx, hctx + 120)
                                   && !In(a, Get(m.regs, RSP) - 24, Get(m.regs, RSP) + 8))
  }

  predicate Apart(a: int, b: int, c: int, d: int) {
    b <= c || d <= a
  }

  predicate In(a: int, lo: int, hi: int) {
    lo <= a < hi
  }

  /** Whatever it is entered with, the guest writes only what it owns, and leaves VM_HSAVE_PA as it is. */
  ghost predicate Confined(guest: Guest, owned: set<int>) {
    StaysIn(guest, owned) && forall g: GuestState :: guest(g).hsavePa == g.hsavePa
  }

  /** It writes only memory and pages it owns. */
  ghost predicate StaysIn(guest: Guest, owned: set<int>) {
    && (forall g: GuestState, a: int :: a !in owned ==> Read(guest(g).mem, a) == Read(g.mem, a))
    && (forall g: GuestState, a: int :: a !in owned ==> SameFrame(guest(g).frames, g.frames, a))
  }

  // Up to the guest.

  function Pushed(m: Machine, r: Reg): Machine {
    var sp := Get(m.regs, RSP) - 8;
    m.(regs := m.regs[RSP := sp], mem := m.mem[sp := Get(m.regs, r)])
  }

  /** The machine after the three pushes and the move. */
  function AfterPush(m: Machine): Machine {
    var m3 := Pushed(Pushed(Pushed(m, RSI), RDI), RDX);
    m3.(regs := m3.regs[RAX := Get(m3.regs, RDI)])
  }

  lemma {:induction false} ExecFirst(m: Machine, i: Instr, code: seq<Instr>, guest: Guest)
    requires Step(m, i, guest).Some?
    ensures Exec(m, [i] + code, guest) == Exec(Step(m, i, guest).value, code, guest)
  {
    assert ([i] + code)[1..] == code;
  }

  lemma {:induction false} ExecPush(m: Machine, guest: Guest)
    ensures Exec(m, PushHandles(), guest) == Some(AfterPush(m))
  {
    var m1 := Pushed(m, RSI);
    var m2 := Pushed(m1, RDI);
    var m3 := Pushed(m2, RDX);
    ExecFirst(m, Push(RSI), [Push(RDI), Push(RDX), Move(RDI, RAX)], guest);
    ExecFirst(m1, Push(RDI), [Push(RDX), Move(RDI, RAX)], guest);
    ExecFirst(m2, Push(RDX), [Move(RDI, RAX)], guest);
    ExecFirst(m3, Move(RDI, RAX), [], guest);
    assert [Push(RSI)] + [Push(RDI), Push(RDX), Move(RDI, RAX)] == PushHandles();
    assert [Push(RDI)] + [Push(RDX), Move(RDI, RAX)] == [Push(RDI), Push(RDX), Move(RDI, RAX)];
    assert [Push(RDX)] + [Move(RDI, RAX)] == [Push(RDX), Move(RDI, RAX)];
    assert [Move(RDI, RAX)] + [] == [Move(RDI, RAX)];
  }

  /** The machine just before VMRUN. */
  function AtEntry(m: Machine, hs: seq<Reg>, gs: seq<Reg>): Machine
    requires HasVmcb(m.frames, Get(m.regs, RDX))
  {
    var m2 := AfterPush(m.(mem := StoreAll(m.mem, hs, Get(m.regs, RSI), m.regs)));
    m2.(regs := LoadAll(m2.regs, gs, Get(m.regs, RDI), m2.mem)[RSP := Get(m.regs, RSP) - 16][RAX := Get(m.regs, RDX)],
        extra := VmcbAt(m.frames, Get(m.regs, RDX)).extra)
  }

  /** Memory when the guest is entered: the host's registers are in hctx, the handles on the stack. */
  lemma {:induction false} EntryMemory(m: Machine, gctx: int, hctx: int, pa: int, owned: set<int>, hs: seq<Reg>,
                                       gs: seq<Reg>, a: int)
    requires Layout(m, gctx, hctx, pa, owned) && InContext(hs)
    ensures var e := AtEntry(m, hs, gs);
            var sp := Get(m.regs, RSP);
            && Read(e.mem, sp - 8) == hctx && Read(e.mem, sp - 16) == gctx && Read(e.mem, sp - 24) == pa
            && (!In(a, hctx, hctx + 120) && !In(a, sp - 24, sp) ==> Read(e.mem, a) == Read(m.mem, a))
            && (In(a, hctx, hctx + 120) ==> Read(e.mem, a) == Read(StoreAll(m.mem, hs, hctx, m.regs), a))
  {
    if !In(a, hctx, hctx + 120) {
      forall r | r in hs
        ensures a != Slot(hctx, r)
      {
        SlotInside(hctx, r);
      }
      StoredElsewhere(m.mem, hs, hctx, m.regs, a);
    }
  }

  /** Each saved host register is in its slot, and each guest register comes from its slot. */
  lemma {:induction false} EntryReg(m: Machine, gctx: int, hctx: int, pa: int, owned: set<int>, hs: seq<Reg>,
                                    gs: seq<Reg>, r: Reg)
    requires Layout(m, gctx, hctx, pa, owned) && InContext(hs) && InContext(gs)
    ensures r in hs ==> Read(AtEntry(m, hs, gs).mem, Slot(hctx, r)) == Get(m.regs, r)
    ensures r in gs ==> Get(AtEntry(m, hs, gs).regs, r) == Read(m.mem, Slot(gctx, r))
  {
    var m2 := AfterPush(m.(mem := StoreAll(m.mem, hs, hctx, m.regs)));
    if r in hs {
      SlotInside(hctx, r);
      EntryMemory(m, gctx, hctx, pa, owned, hs, gs, Slot(hctx, r));
      StoredSlot(m.mem, hs, hctx, m.regs, r);
    }
    if r in gs {
      SlotInside(gctx, r);
      EntryMemory(m, gctx, hctx, pa, owned, hs, gs, Slot(gctx, r));
      LoadedReg(m2.regs, gs, gctx, m2.mem, r);
    }
  }

  lemma {:induction false} EnterReaches(m: Machine, gctx: int, hctx: int, pa: int, owned: set<int>,
                                        hs: seq<Reg>, gs: seq<Reg>, guest: Guest)
    requires Layout(m, gctx, hctx, pa, owned) && InContext(hs) && InContext(gs)
    ensures Exec(m, EnterCode(hs, gs), guest) == Some(AtEntry(m, hs, gs))
  {
    var m1 := m.(mem := StoreAll(m.mem, hs, hctx, m.regs));
    ExecStores(m, hs, RSI, guest);
    ExecConcat(m, Stores(hs, RSI), PushHandles() + (Loads(gs, RAX) + [Pop(RAX), VmLoad]), guest);
    PushThenLoad(m1, gctx, pa, gs, guest);
  }

  lemma {:induction false} PushThenLoad(m: Machine, gctx: int, pa: int, gs: seq<Reg>, guest: Guest)
    requires InContext(gs) && Get(m.regs, RDI) == gctx && Get(m.regs, RDX) == pa && HasVmcb(m.frames, pa)
    ensures var m2 := AfterPush(m);
            Exec(m, PushHandles() + (Loads(gs, RAX) + [Pop(RAX), VmLoad]), guest)
            == Some(m2.(regs := LoadAll(m2.regs, gs, gctx, m2.mem)[RSP := Get(m.regs, RSP) - 16][RAX := pa],
                        extra := VmcbAt(m.frames, pa).extra))
  {
    ExecPush(m, guest);
    ExecConcat(m, PushHandles(), Loads(gs, RAX) + [Pop(RAX), VmLoad], guest);
    LoadThenPop(AfterPush(m), gctx, pa, gs, guest);
  }

  lemma {:induction false} LoadThenPop(m: Machine, gctx: int, pa: int, gs: seq<Reg>, guest: Guest)
    requires InContext(gs) && Get(m.regs, RAX) == gctx && Read(m.mem, Get(m.regs, RSP)) == pa && HasVmcb(m.frames, pa)
    ensures Exec(m, Loads(gs, RAX) + [Pop(RAX), VmLoad], guest)
            == Some(m.(regs := LoadAll(m.regs, gs, gctx, m.mem)[RSP := Get(m.regs, RSP) + 8][RAX := pa],
                       extra := VmcbAt(m.frames, pa).extra))
  {
    ExecLoads(m, gs, RAX, guest);
    ExecConcat(m, Loads(gs, RAX), [Pop(RAX), VmLoad], guest);
    LoadedReg(m.regs, gs, gctx, m.mem, RSP);
    PopAndLoad(m.(regs := LoadAll(m.regs, gs, gctx, m.mem)), pa, guest);
  }

  lemma {:induction false} PopAndLoad(m: Machine, pa: int, guest: Guest)
    requires Read(m.mem, Get(m.regs, RSP)) == pa && HasVmcb(m.frames, pa)
    ensures Exec(m, [Pop(RAX), VmLoad], guest)
            == Some(m.(regs := m.regs[RSP := Get(m.regs, RSP) + 8][RAX := pa], extra := VmcbAt(m.frames, pa).extra))
  {
    ExecFirst(m, Pop(RAX), [VmLoad] + [], guest);
    ExecFirst(Step(m, Pop(RAX), guest).value, VmLoad, [], guest);
    assert [Pop(RAX), VmLoad] == [Pop(RAX)] + ([VmLoad] + []);
  }

  // After the guest.

  /** The machine after VMSAVE and the pop of the guest's context. */
  function Saved(x: Machine, gctx: int, pa: int): Machine
    requires HasVmcb(x.frames, pa)
  {
    x.(frames := SaveExtra(x.frames, pa, x.extra), regs := x.regs[RSP := Get(x.regs, RSP) + 8][RAX := gctx])
  }

  /** The machine after the return. */
  function Left(x: Machine, gctx: int, hctx: int, pa: int, gs: seq<Reg>, back: seq<Reg>): Machine
    requires HasVmcb(x.frames, pa)
  {
    var s := Saved(x, gctx, pa);
    var mem := StoreAll(s.mem, gs, gctx, s.regs);
    var sp := Get(x.regs, RSP) + 16;
    s.(mem := mem, rip := Read(mem, sp),
        regs := LoadAll(s.regs[RSP := sp][RSI := hctx], back, hctx, mem)[RSP := sp + 8])
  }

  /** The stack words and the slots that the code after the guest relies on. */
  ghost predicate Resumable(x: Machine, gctx: int, hctx: int, pa: int) {
    var sp := Get(x.regs, RSP);
    && Get(x.regs, RAX) == pa && HasVmcb(x.frames, pa)
    && Read(x.mem, sp) == gctx && Read(x.mem, sp + 8) == hctx
    && Apart(gctx, gctx + 120, sp, sp + 24)
  }

  lemma {:induction false} LeaveReaches(x: Machine, gctx: int, hctx: int, pa: int, gs: seq<Reg>, back: seq<Reg>,
                                        guest: Guest)
    requires Resumable(x, gctx, hctx, pa) && InContext(gs) && InContext(back) && RSI !in back
    ensures Exec(x, LeaveCode(gs, back), guest) == Some(Left(x, gctx, hctx, pa, gs, back))
  {
    var s := Saved(x, gctx, pa);
    var tail := [Pop(RSI)] + (Loads(back, RSI) + [Ret]);
    SaveAndPop(x, gctx, pa, guest);
    ExecConcat(x, [VmSave, Pop(RAX)], Stores(gs, RAX) + tail, guest);
    ExecStores(s, gs, RAX, guest);
    ExecConcat(s, Stores(gs, RAX), tail, guest);
    var s1 := s.(mem := StoreAll(s.mem, gs, gctx, s.regs));
    StoredOutside(s.mem, gs, gctx, s.regs, Get(s.regs, RSP));
    PopAndReturn(s1, hctx, back, guest);
  }

  lemma {:induction false} SaveAndPop(x: Machine, gctx: int, pa: int, guest: Guest)
    requires Get(x.regs, RAX) == pa && HasVmcb(x.frames, pa) && Read(x.mem, Get(x.regs, RSP)) == gctx
    ensures Exec(x, [VmSave, Pop(RAX)], guest) == Some(Saved(x, gctx, pa))
  {
    var x1 := Step(x, VmSave, guest).value;
    ExecFirst(x, VmSave, [Pop(RAX)], guest);
    ExecFirst(x1, Pop(RAX), [], guest);
    assert [VmSave] + [Pop(RAX)] == [VmSave, Pop(RAX)];
    assert [Pop(RAX)] + [] == [Pop(RAX)];
  }

  lemma {:induction false} PopAndReturn(s: Machine, hctx: int, back: seq<Reg>, guest: Guest)
    requires Read(s.mem, Get(s.regs, RSP)) == hctx && InContext(back) && RSI !in back
    ensures var sp := Get(s.regs, RSP) + 8;
            Exec(s, [Pop(RSI)] + (Loads(back, RSI) + [Ret]), guest)
            == Some(s.(rip := Read(s.mem, sp),
                regs := LoadAll(s.regs[RSP := sp][RSI := hctx], back, hctx, s.mem)[RSP := sp + 8]))
  {
    var sp := Get(s.regs, RSP) + 8;
    var s1 := s.(regs := s.regs[RSP := sp][RSI := hctx]);
    ExecFirst(s, Pop(RSI), Loads(back, RSI) + [Ret], guest);
    ExecLoads(s1, back, RSI, guest);
    ExecConcat(s1, Loads(back, RSI), [Ret], guest);
    LoadedReg(s1.regs, back, hctx, s1.mem, RSP);
    ExecFirst(s1.(regs := LoadAll(s1.regs, back, hctx, s1.mem)), Ret, [], guest);
    assert [Ret] + [] == [Ret];
  }

  lemma {:induction false} StoredOutside(mem: Memory, rs: seq<Reg>, base: int, regs: Regs, a: int)
    requires InContext(rs) && !In(a, base, base + 120)
    ensures Read(StoreAll(mem, rs, base, regs), a) == Read(mem, a)
  {
    forall r | r in rs
      ensures a != Slot(base, r)
    {
      SlotInside(base, r);
    }
    StoredElsewhere(mem, rs, base, regs, a);
  }

  // The whole switch.

  /** The machine after `_yakvm_vcpu_run` returns. */
  function Switched(m: Machine, hs: seq<Reg>, gs: seq<Reg>, back: seq<Reg>, guest: Guest): Machine
    requires HasVmcb(m.frames, Get(m.regs, RDX)) && InContext(gs)
  {
    Left(RunGuest(AtEntry(m, hs, gs), guest), Get(m.regs, RDI), Get(m.regs, RSI), Get(m.regs, RDX), gs, back)
  }

  /** The processor comes back with the host's state, because the guest cannot reach the save area or the VMCB. */
  lemma {:induction false} GuestKeepsFrames(m: Machine, owned: set<int>, guest: Guest)
    requires HasVmcb(m.frames, Get(m.regs, RAX)) && Confined(guest, owned)
    requires Get(m.regs, RAX) !in owned && m.hsavePa !in owned && m.hsavePa != Get(m.regs, RAX)
    ensures var x := RunGuest(m, guest);
            var pa := Get(m.regs, RAX);
            var out := guest(EntryState(m));
            && x.core == m.core && Get(x.regs, RAX) == pa && Get(x.regs, RSP) == Get(m.regs, RSP)
            && HasVmcb(x.frames, pa)
            && VmcbAt(x.frames, pa) == VmcbAt(m.frames, pa).(core := out.core, rax := Get(out.regs, RAX),
                                                             rsp := Get(out.regs, RSP), rip := out.rip,
                                                             exit := out.exit)
            && forall q :: q != pa && q != m.hsavePa && q !in owned ==> SameFrame(x.frames, m.frames, q)
  {
    var e := EntryState(m);
    var out := guest(e);
    assert SameFrame(out.frames, e.frames, m.hsavePa);
    assert SameFrame(out.frames, e.frames, Get(m.regs, RAX));
  }

  /**
   Without a save area out of its reach, a guest can leave the host with any state it likes:
   programming VM_HSAVE_PA with a page of the kernel's own is needed.
   */
  lemma {:induction false} ReachableSaveAreaIsUnsafe(m: Machine, owned: set<int>, core: Core)
    requires HasVmcb(m.frames, Get(m.regs, RAX)) && m.hsavePa in owned && m.hsavePa != Get(m.regs, RAX)
    ensures exists guest: Guest :: Confined(guest, owned) && RunGuest(m, guest).core == core
  {
    var hsave := m.hsavePa;
    var guest: Guest := (g: GuestState) => g.(frames := g.frames[hsave := SaveFrame(HostSave(core, 0, 0))]);
    assert Confined(guest, owned);
    assert RunGuest(m, guest).core == core;
  }

  /**
   Nor is that enough by itself: a guest that changes VM_HSAVE_PA to a page of its own has the
   host come back from there.  That it leaves the register alone is needed too.
   */
  lemma {:induction false} MovedSaveAreaIsUnsafe(m: Machine, owned: set<int>, page: int, core: Core)
    requires HasVmcb(m.frames, Get(m.regs, RAX)) && page in owned && page != Get(m.regs, RAX)
    ensures exists guest: Guest :: StaysIn(guest, owned) && RunGuest(m, guest).core == core
  {
    var guest: Guest :=
      (g: GuestState) => g.(hsavePa := page, frames := g.frames[page := SaveFrame(HostSave(core, 0, 0))]);
    assert StaysIn(guest, owned);
    assert RunGuest(m, guest).core == core;
  }

  lemma {:induction false} GuestResumable(m: Machine, gctx: int, hctx: int, pa: int, owned: set<int>, hs: seq<Reg>,
                                          gs: seq<Reg>, guest: Guest)
    requires Layout(m, gctx, hctx, pa, owned) && Confined(guest, owned) && InContext(hs) && InContext(gs)
    ensures Resumable(RunGuest(AtEntry(m, hs, gs), guest), gctx, hctx, pa)
  {
    var e := AtEntry(m, hs, gs);
    var sp := Get(m.regs, RSP);
    EntryMemory(m, gctx, hctx, pa, owned, hs, gs, sp);
    GuestKeepsFrames(e, owned, guest);
    assert sp - 16 !in owned && sp - 8 !in owned;
  }

  lemma {:induction false} SwitchReaches(m: Machine, gctx: int, hctx: int, pa: int, owned: set<int>,
                                         hs: seq<Reg>, gs: seq<Reg>, back: seq<Reg>, guest: Guest)
    requires Layout(m, gctx, hctx, pa, owned) && Confined(guest, owned)
    requires InContext(hs) && InContext(gs) && InContext(back) && RSI !in back
    ensures Exec(m, SwitchCode(hs, gs, back), guest) == Some(Switched(m, hs, gs, back, guest))
  {
    EnterReaches(m, gctx, hctx, pa, owned, hs, gs, guest);
    ExecConcat(m, EnterCode(hs, gs), [VmRun] + LeaveCode(gs, back), guest);
    ExecFirst(AtEntry(m, hs, gs), VmRun, LeaveCode(gs, back), guest);
    GuestResumable(m, gctx, hctx, pa, owned, hs, gs, guest);
    LeaveReaches(RunGuest(AtEntry(m, hs, gs), guest), gctx, hctx, pa, gs, back, guest);
  }

  /** Memory that the switch may have changed by the time it returns. */
  predicate Scratch(a: int, m: Machine, gctx: int, hctx: int, owned: set<int>) {
    In(a, gctx, gctx + 120) || In(a, hctx, hctx + 120) || In(a, Get(m.regs, RSP) - 24, Get(m.regs, RSP)) || a in owned
  }

  lemma {:induction false} SwitchedMemory(m: Machine, gctx: int, hctx: int, pa: int, owned: set<int>,
                                          hs: seq<Reg>, gs: seq<Reg>, back: seq<Reg>, guest: Guest, a: int)
    requires Layout(m, gctx, hctx, pa, owned) && Confined(guest, owned) && InContext(hs) && InContext(gs)
    ensures !Scratch(a, m, gctx, hctx, owned) ==> Read(Switched(m, hs, gs, back, guest).mem, a) == Read(m.mem, a)
    ensures In(a, hctx, hctx + 120) ==> Read(Switched(m, hs, gs, back, guest).mem, a) == Read(AtEntry(m, hs, gs).mem, a)
  {
    var x := RunGuest(AtEntry(m, hs, gs), guest);
    EntryMemory(m, gctx, hctx, pa, owned, hs, gs, a);
    assert a in owned ==> !In(a, hctx, hctx + 120);
    if !In(a, gctx, gctx + 120) {
      StoredOutside(x.mem, gs, gctx, Saved(x, gctx, pa).regs, a);
    }
  }

  /** The host gets back each register it saved, whatever the guest did. */
  lemma {:induction false} SwitchedHostReg(m: Machine, gctx: int, hctx: int, pa: int, owned: set<int>,
                                           hs: seq<Reg>, gs: seq<Reg>, back: seq<Reg>, guest: Guest, r: Reg)
    requires Layout(m, gctx, hctx, pa, owned) && Confined(guest, owned)
    requires InContext(hs) && InContext(gs) && InContext(back) && RSI !in back && r in hs && r in back
    ensures Get(Switched(m, hs, gs, back, guest).regs, r) == Get(m.regs, r)
  {
    hide RunGuest, StoreAll, LoadAll, Confined;
    GuestResumable(m, gctx, hctx, pa, owned, hs, gs, guest);
    var x := RunGuest(AtEntry(m, hs, gs), guest);
    var s := Saved(x, gctx, pa);
    var mem := StoreAll(s.mem, gs, gctx, s.regs);
    SlotInside(hctx, r);
    SwitchedMemory(m, gctx, hctx, pa, owned, hs, gs, back, guest, Slot(hctx, r));
    EntryReg(m, gctx, hctx, pa, owned, hs, gs, r);
    LoadedReg(s.regs[RSP := Get(x.regs, RSP) + 16][RSI := hctx], back, hctx, mem, r);
  }

  lemma {:induction false} SwitchedHostState(m: Machine, gctx: int, hctx: int, pa: int, owned: set<int>,
                                             hs: seq<Reg>, gs: seq<Reg>, back: seq<Reg>, guest: Guest)
    requires Layout(m, gctx, hctx, pa, owned) && Confined(guest, owned)
    requires InContext(hs) && InContext(gs) && InContext(back) && RSI !in back
    ensures var f := Switched(m, hs, gs, back, guest);
            && Get(f.regs, RSP) == Get(m.regs, RSP) + 8 && Get(f.regs, RSI) == hctx
            && f.rip == Read(m.mem, Get(m.regs, RSP))
            && f.core == m.core && !f.gif && f.hsavePa == m.hsavePa
            && forall q :: q != pa && q != m.hsavePa && q !in owned ==> SameFrame(f.frames, m.frames, q)
  {
    var x := RunGuest(AtEntry(m, hs, gs), guest);
    var s := Saved(x, gctx, pa);
    var sp := Get(m.regs, RSP);
    SwitchedMemory(m, gctx, hctx, pa, owned, hs, gs, back, guest, sp);
    LoadedReg(s.regs[RSP := sp][RSI := hctx], back, hctx, StoreAll(s.mem, gs, gctx, s.regs), RSI);
  }

  // The guest's view.

  /** A register of the guest while it is not running: rax and rsp in the VMCB, the others in gctx. */
  function VcpuReg(m: Machine, gctx: int, pa: int, r: Reg): int
    requires HasVmcb(m.frames, pa)
  {
    match r
    case RAX => VmcbAt(m.frames, pa).rax
    case RSP => VmcbAt(m.frames, pa).rsp
    case _ => Read(m.mem, Slot(gctx, r))
  }

  /** The state in which the guest left. */
  function ExitState(m: Machine, hs: seq<Reg>, gs: seq<Reg>, guest: Guest): GuestState
    requires HasVmcb(m.frames, Get(m.regs, RDX)) && InContext(gs)
  {
    guest(EntryState(AtEntry(m, hs, gs)))
  }

  /** The guest is entered with its own registers and leaves them where the next entry finds them. */
  lemma {:induction false} SwitchedGuestReg(m: Machine, gctx: int, hctx: int, pa: int, owned: set<int>,
                                            hs: seq<Reg>, gs: seq<Reg>, back: seq<Reg>, guest: Guest, r: Reg)
    requires Layout(m, gctx, hctx, pa, owned) && Confined(guest, owned) && InContext(hs) && InContext(gs)
    requires r in gs || r == RAX || r == RSP
    ensures Get(EntryState(AtEntry(m, hs, gs)).regs, r) == VcpuReg(m, gctx, pa, r)
    ensures HasVmcb(Switched(m, hs, gs, back, guest).frames, pa)
    ensures VcpuReg(Switched(m, hs, gs, back, guest), gctx, pa, r) == Get(ExitState(m, hs, gs, guest).regs, r)
  {
    var x := RunGuest(AtEntry(m, hs, gs), guest);
    var s := Saved(x, gctx, pa);
    EntryReg(m, gctx, hctx, pa, owned, hs, gs, r);
    StoredSlot(s.mem, gs, gctx, s.regs, r);
  }

  lemma {:induction false} SwitchedVmcb(m: Machine, gctx: int, hctx: int, pa: int, owned: set<int>,
                                        hs: seq<Reg>, gs: seq<Reg>, back: seq<Reg>, guest: Guest)
    requires Layout(m, gctx, hctx, pa, owned) && Confined(guest, owned) && InContext(gs)
    ensures HasVmcb(Switched(m, hs, gs, back, guest).frames, pa)
    ensures var v := VmcbAt(m.frames, pa);
            var e := EntryState(AtEntry(m, hs, gs));
            var out := ExitState(m, hs, gs, guest);
            && e.rip == v.rip && e.core == v.core && e.extra == v.extra
            && VmcbAt(Switched(m, hs, gs, back, guest).frames, pa)
               == v.(core := out.core, extra := out.extra, rip := out.rip, exit := out.exit,
                     rax := Get(out.regs, RAX), rsp := Get(out.regs, RSP))
  {
    GuestKeepsFrames(AtEntry(m, hs, gs), owned, guest);
  }

  // The theorems about the code as it is.

  /** What a caller gets back from the switch: its registers hs, its stack, and its own state. */
  ghost predicate HostKept(m: Machine, f: Machine, hs: seq<Reg>, pa: int, owned: set<int>) {
    && (forall r :: r in hs ==> Get(f.regs, r) == Get(m.regs, r))
    && Get(f.regs, RSI) == Get(m.regs, RSI)
    && Get(f.regs, RSP) == Get(m.regs, RSP) + 8 && f.rip == Read(m.mem, Get(m.regs, RSP))
    && f.core == m.core && !f.gif && f.hsavePa == m.hsavePa
    && (forall q :: q != pa && q != m.hsavePa && q !in owned ==> SameFrame(f.frames, m.frames, q))
  }

  /** All that the theorems need of the three register lists of driver/vcpu_run.S. */
  ghost predicate Lists(hs: seq<Reg>, gs: seq<Reg>, back: seq<Reg>) {
    && InContext(hs) && InContext(gs) && InContext(back)
    && RDI !in hs && RSI !in hs && RDX !in hs && RSI !in back
    && (forall r :: r in hs ==> r in back)
    && (forall r: Reg :: r in gs || r == RAX || r == RSP)
  }

  lemma {:induction false} SourceLists()
    ensures Lists(HOST_REGS, GUEST_REGS, HOST_REGS_BACK)
    ensures forall r: Reg :: r in HOST_REGS <==> r !in {RAX, RDX, RDI, RSI, RSP}
  {
    forall r: Reg
      ensures r in HOST_REGS <==> r !in {RAX, RDX, RDI, RSI, RSP}
    {
      HostRegs(r);
    }
  }

  lemma HostRegs(r: Reg)
    ensures r in HOST_REGS <==> r !in {RAX, RDX, RDI, RSI, RSP}
  {
  }

  /**
   Host preservation: for every guest, the code returns to its caller with a balanced stack
   and with every register it saved as it was.
   */
  lemma {:induction false} HostPreserved(m: Machine, gctx: int, hctx: int, pa: int, owned: set<int>,
                                         hs: seq<Reg>, gs: seq<Reg>, back: seq<Reg>, guest: Guest)
    requires Layout(m, gctx, hctx, pa, owned) && Confined(guest, owned) && Lists(hs, gs, back)
    ensures Exec(m, SwitchCode(hs, gs, back), guest).Some?
    ensures HostKept(m, Exec(m, SwitchCode(hs, gs, back), guest).value, hs, pa, owned)
    ensures forall a :: !Scratch(a, m, gctx, hctx, owned) ==>
                          Read(Exec(m, SwitchCode(hs, gs, back), guest).value.mem, a) == Read(m.mem, a)
  {
    SwitchReaches(m, gctx, hctx, pa, owned, hs, gs, back, guest);
    SwitchedHostState(m, gctx, hctx, pa, owned, hs, gs, back, guest);
    var f := Switched(m, hs, gs, back, guest);
    forall r | r in hs
      ensures Get(f.regs, r) == Get(m.regs, r)
    {
      SwitchedHostReg(m, gctx, hctx, pa, owned, hs, gs, back, guest, r);
    }
    forall a | !Scratch(a, m, gctx, hctx, owned)
      ensures Read(f.mem, a) == Read(m.mem, a)
    {
      SwitchedMemory(m, gctx, hctx, pa, owned, hs, gs, back, guest, a);
    }
  }

  /**
   The code as it stands in driver/vcpu_run.S: it returns to its caller with every register but
   rax, rdx and rdi as it was, the stack pointer past the return address, and rsi at hctx.
   */
  lemma {:induction false} VcpuRunPreservesHost(m: Machine, gctx: int, hctx: int, pa: int, owned: set<int>,
                                                guest: Guest)
    requires Layout(m, gctx, hctx, pa, owned) && Confined(guest, owned)
    ensures Exec(m, VcpuRunCode(), guest).Some?
    ensures HostKept(m, Exec(m, VcpuRunCode(), guest).value, HOST_REGS, pa, owned)
    ensures var f := Exec(m, VcpuRunCode(), guest).value;
            && (forall r: Reg :: r !in {RAX, RDX, RDI, RSP} ==> Get(f.regs, r) == Get(m.regs, r))
            && Get(f.regs, RSP) == Get(m.regs, RSP) + 8 && f.rip == Read(m.mem, Get(m.regs, RSP))
            && f.core == m.core && f.hsavePa == m.hsavePa
  {
    SourceLists();
    HostPreserved(m, gctx, hctx, pa, owned, HOST_REGS, GUEST_REGS, HOST_REGS_BACK, guest);
  }

  /**
   Guest continuity across one run: the guest is entered with the registers the vcpu holds,
   and the vcpu then holds the registers the guest left with.
   */
  lemma {:induction false} GuestCarried(m: Machine, gctx: int, hctx: int, pa: int, owned: set<int>,
                                        hs: seq<Reg>, gs: seq<Reg>, back: seq<Reg>, guest: Guest, r: Reg)
    requires Layout(m, gctx, hctx, pa, owned) && Confined(guest, owned) && Lists(hs, gs, back)
    ensures Exec(m, SwitchCode(hs, gs, back), guest).Some?
    ensures var f := Exec(m, SwitchCode(hs, gs, back), guest).value;
            var e := EntryState(AtEntry(m, hs, gs));
            && HasVmcb(f.frames, pa)
            && Get(e.regs, r) == VcpuReg(m, gctx, pa, r) && VcpuReg(f, gctx, pa, r) == Get(guest(e).regs, r)
            && e.rip == VmcbAt(m.frames, pa).rip && VmcbAt(f.frames, pa).rip == guest(e).rip
            && e.core == VmcbAt(m.frames, pa).core && VmcbAt(f.frames, pa).core == guest(e).core
            && e.extra == VmcbAt(m.frames, pa).extra && VmcbAt(f.frames, pa).extra == guest(e).extra
            && VmcbAt(f.frames, pa).nestedCr3 == VmcbAt(m.frames, pa).nestedCr3
               && VmcbAt(f.frames, pa).asid == VmcbAt(m.frames, pa).asid
  {
    SwitchReaches(m, gctx, hctx, pa, owned, hs, gs, back, guest);
    SwitchedGuestReg(m, gctx, hctx, pa, owned, hs, gs, back, guest, r);
    SwitchedVmcb(m, gctx, hctx, pa, owned, hs, gs, back, guest);
  }

  lemma {:induction false} VcpuRunCarriesGuest(m: Machine, gctx: int, hctx: int, pa: int, owned: set<int>,
                                               guest: Guest, r: Reg)
    requires Layout(m, gctx, hctx, pa, owned) && Confined(guest, owned)
    ensures Exec(m, VcpuRunCode(), guest).Some?
    ensures var f := Exec(m, VcpuRunCode(), guest).value;
            var e := EntryState(AtEntry(m, HOST_REGS, GUEST_REGS));
            HasVmcb(f.frames, pa) && Get(e.regs, r) == VcpuReg(m, gctx, pa, r)
                && VcpuReg(f, gctx, pa, r) == Get(guest(e).regs, r)
  {
    SourceLists();
    GuestCarried(m, gctx, hctx, pa, owned, HOST_REGS, GUEST_REGS, HOST_REGS_BACK, guest, r);
  }

  // driver/cpu.c: yakvm_vcpu_run.

  /** Lines 72-99: up to the call. */
  function BeforeCall(hsave: int, gctx: int, hctx: int, gpa: int, hpa: int, back: int): seq<Instr> {
    [SetHsave(hsave), Clgi, Set(RAX, hpa), VmSave, Set(RDI, gctx), Set(RSI, hctx), Set(RDX, gpa), Call(back)]
  }

  /** Lines 101-110: after the call. */
  function AfterCall(hpa: int): seq<Instr> {
    [Set(RAX, hpa), VmLoad, Stgi]
  }

  /** The C function around a callee. */
  function Around(callee: seq<Instr>, hsave: int, gctx: int, hctx: int, gpa: int, hpa: int, back: int): seq<Instr> {
    BeforeCall(hsave, gctx, hctx, gpa, hpa, back) + (callee + AfterCall(hpa))
  }

  /** The machine at the first instruction of `_yakvm_vcpu_run`. */
  function Called(m: Machine, hsave: int, gctx: int, hctx: int, gpa: int, hpa: int, back: int): Machine
    requires HasVmcb(m.frames, hpa)
  {
    var sp := Get(m.regs, RSP) - 8;
    m.(hsavePa := hsave, gif := false, frames := SaveExtra(m.frames, hpa, m.extra),
       regs := m.regs[RAX := hpa][RDI := gctx][RSI := hctx][RDX := gpa][RSP := sp], mem := m.mem[sp := back])
  }

  lemma {:induction false} CallReaches(m: Machine, hsave: int, gctx: int, hctx: int, gpa: int, hpa: int, back: int,
                                       guest: Guest)
    requires HasVmcb(m.frames, hpa)
    ensures Exec(m, BeforeCall(hsave, gctx, hctx, gpa, hpa, back), guest)
            == Some(Called(m, hsave, gctx, hctx, gpa, hpa, back))
  {
    var code := [Set(RDI, gctx), Set(RSI, hctx), Set(RDX, gpa), Call(back)];
    SaveHost(m, hsave, hpa, code, guest);
    assert BeforeCall(hsave, gctx, hctx, gpa, hpa, back) == [SetHsave(hsave), Clgi, Set(RAX, hpa), VmSave] + code;
    PassArguments(HostSaved(m, hsave, hpa), gctx, hctx, gpa, back, guest);
  }

  function HostSaved(m: Machine, hsave: int, hpa: int): Machine
    requires HasVmcb(m.frames, hpa)
  {
    m.(hsavePa := hsave, gif := false, regs := m.regs[RAX := hpa], frames := SaveExtra(m.frames, hpa, m.extra))
  }

  lemma {:induction false} SaveHost(m: Machine, hsave: int, hpa: int, code: seq<Instr>, guest: Guest)
    requires HasVmcb(m.frames, hpa)
    ensures Exec(m, [SetHsave(hsave), Clgi, Set(RAX, hpa), VmSave] + code, guest)
            == Exec(HostSaved(m, hsave, hpa), code, guest)
  {
    var m1 := m.(hsavePa := hsave);
    var m2 := m1.(gif := false);
    var m3 := m2.(regs := m2.regs[RAX := hpa]);
    var rest := [VmSave] + code;
    ExecFirst(m, SetHsave(hsave), [Clgi, Set(RAX, hpa)] + rest, guest);
    ExecFirst(m1, Clgi, [Set(RAX, hpa)] + rest, guest);
    ExecFirst(m2, Set(RAX, hpa), rest, guest);
    ExecFirst(m3, VmSave, code, guest);
    assert [SetHsave(hsave), Clgi, Set(RAX, hpa), VmSave] + code == [SetHsave(hsave)] + ([Clgi, Set(RAX, hpa)] + rest);
    assert [Clgi, Set(RAX, hpa)] + rest == [Clgi] + ([Set(RAX, hpa)] + rest);
  }

  lemma {:induction false} PassArguments(m: Machine, gctx: int, hctx: int, gpa: int, back: int, guest: Guest)
    ensures var sp := Get(m.regs, RSP) - 8;
            Exec(m, [Set(RDI, gctx), Set(RSI, hctx), Set(RDX, gpa), Call(back)], guest)
            == Some(m.(regs := m.regs[RDI := gctx][RSI := hctx][RDX := gpa][RSP := sp], mem := m.mem[sp := back]))
  {
    var m1 := m.(regs := m.regs[RDI := gctx]);
    var m2 := m1.(regs := m1.regs[RSI := hctx]);
    var m3 := m2.(regs := m2.regs[RDX := gpa]);
    ExecFirst(m, Set(RDI, gctx), [Set(RSI, hctx), Set(RDX, gpa), Call(back)], guest);
    ExecFirst(m1, Set(RSI, hctx), [Set(RDX, gpa), Call(back)], guest);
    ExecFirst(m2, Set(RDX, gpa), [Call(back)], guest);
    ExecFirst(m3, Call(back), [], guest);
    assert [Set(RDI, gctx)] + [Set(RSI, hctx), Set(RDX, gpa), Call(back)]
        == [Set(RDI, gctx), Set(RSI, hctx), Set(RDX, gpa), Call(back)];
    assert [Set(RSI, hctx)] + [Set(RDX, gpa), Call(back)] == [Set(RSI, hctx), Set(RDX, gpa), Call(back)];
    assert [Set(RDX, gpa)] + [Call(back)] == [Set(RDX, gpa), Call(back)];
    assert [Call(back)] + [] == [Call(back)];
  }

  lemma {:induction false} ReturnReaches(m: Machine, hpa: int, guest: Guest)
    requires HasVmcb(m.frames, hpa)
    ensures Exec(m, AfterCall(hpa), guest)
            == Some(m.(regs := m.regs[RAX := hpa], extra := VmcbAt(m.frames, hpa).extra, gif := true))
  {
    var m1 := m.(regs := m.regs[RAX := hpa]);
    var m2 := m1.(extra := VmcbAt(m.frames, hpa).extra);
    ExecFirst(m, Set(RAX, hpa), [VmLoad, Stgi], guest);
    ExecFirst(m1, VmLoad, [Stgi], guest);
    ExecFirst(m2, Stgi, [], guest);
    assert [Set(RAX, hpa)] + [VmLoad, Stgi] == AfterCall(hpa);
    assert [VmLoad] + [Stgi] == [VmLoad, Stgi];
    assert [Stgi] + [] == [Stgi];
  }

  /**
   The whole YAKVM_RUN: for every guest, the host continues after the call with its
   callee-saved registers, its stack pointer, the state VMRUN exchanges and the state it does not.
   */
  lemma {:induction false} RunRestoresHost(m: Machine, hsave: int, gctx: int, hctx: int, gpa: int, hpa: int, ra: int,
                                           owned: set<int>, hs: seq<Reg>, gs: seq<Reg>, back: seq<Reg>, guest: Guest)
    requires HasVmcb(m.frames, hpa) && hpa !in {gpa, hsave} && hpa !in owned && Confined(guest, owned)
             && Lists(hs, gs, back)
    requires Layout(Called(m, hsave, gctx, hctx, gpa, hpa, ra), gctx, hctx, gpa, owned)
    ensures Exec(m, Around(SwitchCode(hs, gs, back), hsave, gctx, hctx, gpa, hpa, ra), guest).Some?
    ensures HostBack(m, Exec(m, Around(SwitchCode(hs, gs, back), hsave, gctx, hctx, gpa, hpa, ra), guest).value, hs, ra)
  {
    HostPreserved(Called(m, hsave, gctx, hctx, gpa, hpa, ra), gctx, hctx, gpa, owned, hs, gs, back, guest);
    AroundRestores(m, SwitchCode(hs, gs, back), hsave, gctx, hctx, gpa, hpa, ra, owned, guest, hs);
  }

  /** The code of `yakvm_vcpu_run` as it stands. */
  lemma {:induction false} VcpuRunRestoresHost(m: Machine, hsave: int, gctx: int, hctx: int, gpa: int, hpa: int,
                                               ra: int,
                                               owned: set<int>, guest: Guest)
    requires HasVmcb(m.frames, hpa) && hpa !in {gpa, hsave} && hpa !in owned && Confined(guest, owned)
    requires Layout(Called(m, hsave, gctx, hctx, gpa, hpa, ra), gctx, hctx, gpa, owned)
    ensures Exec(m, Around(VcpuRunCode(), hsave, gctx, hctx, gpa, hpa, ra), guest).Some?
    ensures HostBack(m, Exec(m, Around(VcpuRunCode(), hsave, gctx, hctx, gpa, hpa, ra), guest).value, HOST_REGS, ra)
    ensures var f := Exec(m, Around(VcpuRunCode(), hsave, gctx, hctx, gpa, hpa, ra), guest).value;
            && (forall r: Reg :: r !in {RAX, RDX, RDI, RSI} ==> Get(f.regs, r) == Get(m.regs, r))
            && f.rip == ra && f.core == m.core && f.extra == m.extra && f.gif
  {
    SourceLists();
    RunRestoresHost(m, hsave, gctx, hctx, gpa, hpa, ra, owned, HOST_REGS, GUEST_REGS, HOST_REGS_BACK, guest);
  }

  ghost predicate HostBack(m: Machine, f: Machine, hs: seq<Reg>, back: int) {
    && (forall r :: r in hs ==> Get(f.regs, r) == Get(m.regs, r))
    && Get(f.regs, RSP) == Get(m.regs, RSP) && f.rip == back
    && f.core == m.core && f.extra == m.extra && f.gif
  }

  lemma {:induction false} AroundRestores(m: Machine, callee: seq<Instr>, hsave: int, gctx: int, hctx: int, gpa: int,
                                          hpa: int, back: int,
                                          owned: set<int>, guest: Guest, hs: seq<Reg>)
    requires HasVmcb(m.frames, hpa) && hpa !in {gpa, hsave} && hpa !in owned && InContext(hs) && RDI !in hs
             && RSI !in hs && RDX !in hs
    requires Exec(Called(m, hsave, gctx, hctx, gpa, hpa, back), callee, guest).Some?
    requires HostKept(Called(m, hsave, gctx, hctx, gpa, hpa, back),
             Exec(Called(m, hsave, gctx, hctx, gpa, hpa, back), callee, guest).value,
                      hs, gpa, owned)
    ensures Exec(m, Around(callee, hsave, gctx, hctx, gpa, hpa, back), guest).Some?
    ensures HostBack(m, Exec(m, Around(callee, hsave, gctx, hctx, gpa, hpa, back), guest).value, hs, back)
  {
    AroundReaches(m, callee, hsave, gctx, hctx, gpa, hpa, back, guest);
  }

  lemma {:induction false} AroundReaches(m: Machine, callee: seq<Instr>, hsave: int, gctx: int, hctx: int, gpa: int,
                                         hpa: int, back: int, guest: Guest)
    requires HasVmcb(m.frames, hpa)
    requires Exec(Called(m, hsave, gctx, hctx, gpa, hpa, back), callee, guest).Some?
    requires HasVmcb(Exec(Called(m, hsave, gctx, hctx, gpa, hpa, back), callee, guest).value.frames, hpa)
    ensures var f := Exec(Called(m, hsave, gctx, hctx, gpa, hpa, back), callee, guest).value;
            Exec(m, Around(callee, hsave, gctx, hctx, gpa, hpa, back), guest)
            == Some(f.(regs := f.regs[RAX := hpa], extra := VmcbAt(f.frames, hpa).extra, gif := true))
  {
    var c := Called(m, hsave, gctx, hctx, gpa, hpa, back);
    CallReaches(m, hsave, gctx, hctx, gpa, hpa, back, guest);
    ExecConcat(m, BeforeCall(hsave, gctx, hctx, gpa, hpa, back), callee + AfterCall(hpa), guest);
    ExecConcat(c, callee, AfterCall(hpa), guest);
    ReturnReaches(Exec(c, callee, guest).value, hpa, guest);
  }

  /** GIF stays clear while no STGI is executed: VMRUN itself leaves it clear. */
  lemma {:induction false} GifStaysClear(m: Machine, code: seq<Instr>, guest: Guest)
    requires !m.gif && Stgi !in code && Exec(m, code, guest).Some?
    ensures !Exec(m, code, guest).value.gif
    decreases |code|
  {
    if code != [] {
      var m1 := Step(m, code[0], guest).value;
      assert !m1.gif;
      GifStaysClear(m1, code[1..], guest);
    }
  }

  /** From CLGI to STGI, GIF is clear after every instruction of the host. */
  lemma {:induction false} GifClearThroughout(m: Machine, hsave: int, gctx: int, hctx: int, gpa: int, hpa: int, ra: int,
                                              hs: seq<Reg>, gs: seq<Reg>, back: seq<Reg>, guest: Guest, k: nat)
    requires 2 <= k < |Around(SwitchCode(hs, gs, back), hsave, gctx, hctx, gpa, hpa, ra)|
    requires Exec(m, Around(SwitchCode(hs, gs, back), hsave, gctx, hctx, gpa, hpa, ra)[..k], guest).Some?
    ensures !Exec(m, Around(SwitchCode(hs, gs, back), hsave, gctx, hctx, gpa, hpa, ra)[..k], guest).value.gif
  {
    SwitchHasNoStgi(hs, gs, back);
    GifClearAround(m, SwitchCode(hs, gs, back), hsave, gctx, hctx, gpa, hpa, ra, guest, k);
  }

  lemma {:induction false} GifClearAround(m: Machine, callee: seq<Instr>, hsave: int, gctx: int, hctx: int, gpa: int,
                                          hpa: int, back: int,
                                          guest: Guest, k: nat)
    requires Stgi !in callee && 2 <= k < |Around(callee, hsave, gctx, hctx, gpa, hpa, back)|
    requires Exec(m, Around(callee, hsave, gctx, hctx, gpa, hpa, back)[..k], guest).Some?
    ensures !Exec(m, Around(callee, hsave, gctx, hctx, gpa, hpa, back)[..k], guest).value.gif
  {
    var code := Around(callee, hsave, gctx, hctx, gpa, hpa, back);
    var rest := code[2..k];
    assert code[..k] == [SetHsave(hsave)] + ([Clgi] + rest);
    ExecFirst(m, SetHsave(hsave), [Clgi] + rest, guest);
    ExecFirst(m.(hsavePa := hsave), Clgi, rest, guest);
    forall i | 0 <= i < |rest|
      ensures rest[i] != Stgi
    {
      var n := |BeforeCall(hsave, gctx, hctx, gpa, hpa, back)|;
      assert n <= i + 2 < n + |callee| ==> rest[i] == callee[i + 2 - n];
    }
    GifStaysClear(m.(hsavePa := hsave, gif := false), rest, guest);
  }

  lemma {:induction false} SwitchHasNoStgi(hs: seq<Reg>, gs: seq<Reg>, back: seq<Reg>)
    ensures Stgi !in SwitchCode(hs, gs, back)
  {
    StoresHaveNoStgi(hs, RSI);
    StoresHaveNoStgi(gs, RAX);
    StoresHaveNoStgi(back, RSI);
  }

  lemma {:induction false} StoresHaveNoStgi(rs: seq<Reg>, base: Reg)
    ensures Stgi !in Stores(rs, base) && Stgi !in Loads(rs, base)
    decreases |rs|
  {
    if rs != [] {
      StoresHaveNoStgi(rs[1..], base);
    }
  }

  /** A processor that executes code one instruction after the other. */
  class Processor {
    var m: Machine

    constructor (m: Machine)
      ensures this.m == m
    {
      this.m := m;
    }

    method Execute(code: seq<Instr>, guest: Guest) returns (ok: bool)
      modifies this
      ensures ok <==> Exec(old(m), code, guest).Some?
      ensures ok ==> m == Exec(old(m), code, guest).value
    {
      for i := 0 to |code|
        invariant Exec(old(m), code, guest) == Exec(m, code[i..], guest)
      {
        var next := Step(m, code[i], guest);
        assert code[i..][0] == code[i] && code[i..][1..] == code[i + 1..];
        if next.None? {
          return false;
        }
        m := next.value;
      }
      ok := true;
    }
  }
}
