/**
 What the handlers of tool/cpu.c do, on values: exactly when they abort, what they leave
 otherwise, and that on supported instructions this is the ideal machine's step.
 */
module ExitHandling {
  import opened Words
  import opened Address
  import opened PageTable
  import opened WorldSwitch
  import opened VcpuRegisters
  import opened Ioio
  import opened IdealMachine
  import opened Emulation

  // What the tool reads.

  /** What the tool reads through its mapping, if it can read there. */
  function ToolReads(b: Board, mem: map<nat, Page>, a: Word): Option<Byte8> {
    if a < b.memory && !OnMmioPage(b, a) then Some(ByteAt(mem, a)) else None
  }

  /** What the kernel shares with the tool after a run. */
  function SharedOf(v: Vcpu): SharedState {
    SharedState(v.vmcb.exit, v.vmcb.core.cs.base, v.vmcb.rip)
  }

  /** The handler's ip, in uint32_t. */
  function SharedIp(state: SharedState): U32 {
    (state.cs + state.rip) % 0x1_0000_0000
  }

  /** `ip + k` in uint32_t. */
  function IpPlus(ip: U32, k: nat): U32 {
    (ip + k) % 0x1_0000_0000
  }

  /** The index in the log line. */
  function LogIndex(state: SharedState): Word {
    (state.cs + state.rip) % TWO_64
  }

  /** The opcode that the MMIO handler finds at ip, unless one of its assertions on the bytes fails. */
  function OpcodeAt(b: Board, mem: map<nat, Page>, ip: U32): Option<Byte8> {
    if ToolReads(b, mem, ip) == Some(0x67) then MoveAt(b, mem, ip) else None
  }

  function MoveAt(b: Board, mem: map<nat, Page>, ip: U32): Option<Byte8> {
    var opcode := ToolReads(b, mem, IpPlus(ip, 1));
    if ToolReads(b, mem, IpPlus(ip, 2)) == Some(0x02) && (opcode == Some(0x88) || opcode == Some(0x8a)) then opcode
    else None
  }

  /** `yakvm_page`, the base of a page. */
  function PageBase(gpa: Word): Word {
    gpa - gpa % PAGE_SIZE
  }

  lemma PageBaseIsMask(gpa: Word)
    ensures PageBase(gpa) == And(gpa, TWO_64 - PAGE_SIZE)
  {
    Pow2Values();
    AndHighMask(gpa, 64, 12);
    ShiftIsDiv(gpa, 12);
  }

  lemma {:induction false} SamePage(gpa: Word)
    ensures Gpn(PageBase(gpa)) == Gpn(gpa) && LeafPath(PageBase(gpa)) == LeafPath(gpa)
  {
    assert PageBase(gpa) / PAGE_SIZE == gpa / PAGE_SIZE;
    SameLeafIffSameGpn(PageBase(gpa), gpa);
  }

  // The handlers.

  /** The registers and devices after a device access (tool/cpu.c:101-123); the transfer cuts the segment bases. */
  predicate AccessDone(opcode: Byte8, v: Vcpu, dev: Devices, v': Vcpu, dev': Devices) {
    var rip := RipPlus(v.vmcb.rip, 3);
    if opcode == 0x88 then v' == Jump(Cut(v), rip) && dev' == dev.(mmio := Al(v))
    else v' == Jump(WithRax(Cut(v), MmioGet(dev)), rip) && dev' == dev
  }

  /** The registers and devices after a port access (tool/cpu.c:148-162). */
  predicate PortDone(io: Io, next: Word, v: Vcpu, dev: Devices, v': Vcpu, dev': Devices) {
    if io.isIn then v' == Jump(WithRax(Cut(v), PioGet(dev)), next) && dev' == dev
    else v' == Jump(Cut(v), next) && dev' == dev.(pio := Al(v))
  }

  /** Whether the handler of a nested page fault aborts when memory does not run out. */
  predicate NpfAborts(b: Board, v: Vcpu, mem: map<nat, Page>) {
    if v.vmcb.exit.info2 == b.mmioHawk then
      OpcodeAt(b, mem, SharedIp(SharedOf(v))) == None || v.gctx.rdx != b.mmioHawk
    else OnMmioPage(b, v.vmcb.exit.info2)
  }

  /** Whether the handler of this vcpu's exit aborts; io is the port access that an IOIO exit reports. */
  predicate HandlerAborts(b: Board, v: Vcpu, io: Io, mem: map<nat, Page>) {
    var code := v.vmcb.exit.code;
    if code == SVM_EXIT_NPF then NpfAborts(b, v, mem)
    else if code == SVM_EXIT_DB then ToolReads(b, mem, LogIndex(SharedOf(v))) == None
    else if code == SVM_EXIT_HLT then false
    else if code == SVM_EXIT_IOIO then io.size != Byte || io.port != b.pioHawk
    else true
  }

  /** The tool can read this byte of guest memory, and it is x. */
  predicate ToolFinds(b: Board, mem: map<nat, Page>, a: Word, x: Byte8) {
    a < b.memory && Gpn(a) != Gpn(b.mmioHawk) && ByteAt(mem, a) == x
  }

  /**
   The exits that the tool survives, in full (tool/cpu.c:77-195): HLT, a trap at an instruction
   that it can read, a byte access to the device's port, one of the two moves at the device's
   address with that address in rdx, and a fault at any other page but the MMIO page.
   */
  lemma {:induction false} SurvivesIff(b: Board, v: Vcpu, io: Io, mem: map<nat, Page>)
    ensures var exit, at := v.vmcb.exit, v.vmcb.core.cs.base + v.vmcb.rip;
            !HandlerAborts(b, v, io, mem) <==>
              || exit.code == 0x78
              || (exit.code == 0x41 && at % TWO_64 < b.memory && Gpn(at % TWO_64) != Gpn(b.mmioHawk))
              || (exit.code == 0x7b && io.size == Byte && io.port == b.pioHawk)
              || (exit.code == 0x400 && exit.info2 == b.mmioHawk && v.gctx.rdx == b.mmioHawk
                  && ToolFinds(b, mem, at % 0x1_0000_0000, 0x67)
                  && (ToolFinds(b, mem, (at + 1) % 0x1_0000_0000, 0x88)
                      || ToolFinds(b, mem, (at + 1) % 0x1_0000_0000, 0x8a))
                  && ToolFinds(b, mem, (at + 2) % 0x1_0000_0000, 0x02))
              || (exit.code == 0x400 && exit.info2 != b.mmioHawk && Gpn(exit.info2) != Gpn(b.mmioHawk))
  {
    var at := v.vmcb.core.cs.base + v.vmcb.rip;
    IpWraps(at, 1);
    IpWraps(at, 2);
  }

  lemma IpWraps(at: int, k: nat)
    ensures (at % 0x1_0000_0000 + k) % 0x1_0000_0000 == (at + k) % 0x1_0000_0000
  {
  }

  /** An exit that the tool does not know fails the assertion in its loop, with the registers as they are. */
  lemma UnknownExitAborts(b: Board, v: Vcpu, io: Io, mem: map<nat, Page>)
    requires v.vmcb.exit.code !in {0x41, 0x78, 0x7b, 0x400}
    ensures HandlerAborts(b, v, io, mem)
  {
  }

  /** What a handler that does not abort leaves. */
  predicate HandlerDone(b: Board, v: Vcpu, io: Io, mem: map<nat, Page>, dev: Devices,
                        v': Vcpu, dev': Devices, halted: bool) {
    var code := v.vmcb.exit.code;
    && (halted <==> code == SVM_EXIT_HLT)
    && if code == SVM_EXIT_NPF && v.vmcb.exit.info2 == b.mmioHawk then
         var opcode := OpcodeAt(b, mem, SharedIp(SharedOf(v)));
         opcode.Some? && AccessDone(opcode.value, v, dev, v', dev')
       else if code == SVM_EXIT_IOIO then PortDone(io, v.vmcb.exit.info2, v, dev, v', dev')
       else v' == v && dev' == dev
  }

  /** The same, as a value that contracts pass on whole. */
  function Afterwards(b: Board, v: Vcpu, io: Io, mem: map<nat, Page>, dev: Devices,
                   v': Vcpu, dev': Devices, halted: bool): Verdict {
    if HandlerDone(b, v, io, mem, dev, v', dev', halted) then Holds else Fails
  }

  // The step of the emulated machine.

  /** The port access of an instruction that is one. */
  function IoOf(i: Instruction): Io {
    match i
    case Other(PortAccess(_, io, _)) => io
    case _ => Io(false, false, false, Byte, 0, 0)
  }

  /** What an IOIO exit reports is the access of the instruction. */
  lemma {:induction false} ExitReportsIo(b: Board, i: Instruction, v: Vcpu)
    ensures FinalCpu(b, i, v).vmcb.exit.code == SVM_EXIT_IOIO ==>
              FinalCpu(b, i, v).vmcb.exit.info1 == Encode(IoOf(i))
  {
  }

  /** The step aborts once every page it needs is present. */
  predicate StepAborts(b: Board, s: Ideal, x: int) {
    var i, u := TwinInstruction(b, s, x), Twin(s, x);
    HandlerAborts(b, FinalCpu(b, i, u), IoOf(i), FinalMem(b, i, u, s.mem))
  }

  /** The emulated vcpu has the ideal one's state, and x in rax. */
  predicate Matches(v: Vcpu, s: Ideal, x: int) {
    Clean(v) == Twin(s, x) && x % 256 == Al(s.cpu)
  }

  /** The whole emulated machine. */
  ghost predicate Agrees(b: Board, v: Vcpu, h: Heap, t: Npt, dev: Devices, s: Ideal, x: int) {
    SameMemory(b, h, t, s.mem) && Matches(v, s, x) && dev == s.dev
  }

  /** Every state of the emulated machine stands for the ideal machine with its registers, memory and devices. */
  lemma {:induction false} StartAgrees(b: Board, v: Vcpu, h: Heap, t: Npt, dev: Devices)
    requires Tree(h, t) && t.hidden == {LeafPath(b.mmioHawk)}
    ensures Agrees(b, v, h, t, dev, Ideal(v, View(h, t.root), dev, false), v.vmcb.rax)
  {
    ShowingIsView(h, t.root, View(h, t.root));
  }

  lemma {:induction false} FinalCpuClean(b: Board, i: Instruction, v: Vcpu, u: Vcpu)
    requires Clean(v) == Clean(u)
    ensures FinalCpu(b, i, v) == FinalCpu(b, i, u)
    ensures forall mem :: FinalMem(b, i, v, mem) == FinalMem(b, i, u, mem)
  {
    SameClean(v, u);
    assert AllTouches(b, i, v) == AllTouches(b, i, u);
    assert forall code, a: Word, c: Word :: WithExit(v, code, a, c) == WithExit(u, code, a, c);
  }

  /** The guest has stopped at a page that the next step touches and that is not in the table. */
  ghost predicate FaultedAt(b: Board, v: Vcpu, h: Heap, t: Npt, s: Ideal, x: int, gpa: Word) {
    && Matches(v, s, x) && SameMemory(b, h, t, s.mem)
    && v.vmcb.exit == ExitInfo(SVM_EXIT_NPF, 0, gpa) && !OnMmioPage(b, gpa)
    && Gpn(gpa) in StepPages(b, s, x) && LeafPath(gpa) !in t.nodes
  }

  /** The guest has stopped where the next step, with all its pages present, stops. */
  ghost predicate AtFinal(b: Board, v: Vcpu, h: Heap, t: Npt, s: Ideal, x: int) {
    var i, u := TwinInstruction(b, s, x), Twin(s, x);
    v == FinalCpu(b, i, u) && SameMemory(b, h, t, FinalMem(b, i, u, s.mem))
  }

  /** The guest has stopped so. */
  ghost function AtStop(b: Board, e: Exited, t: Npt, s: Ideal, x: int, stop: Stop): Verdict {
    if Stopped(b, e, t, s, x, stop) then Holds else Fails
  }

  ghost predicate Stopped(b: Board, e: Exited, t: Npt, s: Ideal, x: int, stop: Stop) {
    if stop.Missing? then FaultedAt(b, e.cpu, e.h, t, s, x, stop.gpa) else AtFinal(b, e.cpu, e.h, t, s, x)
  }

  /** How the next entry of the guest stops. */
  function NextStop(b: Board, v: Vcpu, h: Heap, root: Pfn, s: Ideal, x: int): Stop {
    StopOf(b, FirstFault(h, root, AllTouches(b, TwinInstruction(b, s, x), v)))
  }

  /** How the emulated machine enters the guest, in terms of the ideal one and its rax. */
  lemma {:induction false} EntryOfTwin(b: Board, v: Vcpu, h: Heap, t: Npt, dev: Devices, s: Ideal, x: int)
    returns (e: Exited, stop: Stop)
    requires Agrees(b, v, h, t, dev, s, x)
    ensures e == GuestRuns(b, v, h, t.root) && stop == NextStop(b, v, h, t.root, s, x)
    ensures AtStop(b, e, t, s, x, stop) == Holds && Tree(e.h, t)
  {
    hide GuestRuns, FinalCpu, FinalMem, Decode;
    e, stop := GuestRuns(b, v, h, t.root), NextStop(b, v, h, t.root, s, x);
    CleanDecode(b, v, Twin(s, x), s.mem);
    EntryEnds(b, v, h, t, s.mem);
    FinalCpuClean(b, TwinInstruction(b, s, x), v, Twin(s, x));
  }

  // Supported steps.

  lemma {:induction false} SameTouches(i: Instruction, v: Vcpu, j: Instruction, s: Ideal, x: int)
    requires Clean(v) == Twin(s, x) && SameInstruction(i, j)
    ensures Touches(i, v) == Touches(j, s.cpu)
  {
    SameClean(v, Twin(s, x));
    assert forall k: nat :: Linear(Twin(s, x), k) == Linear(s.cpu, k);
  }

  /** Where a supported step ends, and what it leaves in memory. */
  lemma {:induction false} SupportedEnds(b: Board, s: Ideal, x: int)
    requires Supported(b, s, x)
    ensures var i, j := TwinInstruction(b, s, x), NextInstruction(b, s);
            && FinalCpu(b, i, Twin(s, x)) == (if Device(j) then WithExit(Twin(s, x), SVM_EXIT_NPF, 0, b.mmioHawk)
                                              else ExitCpu(i, Twin(s, x)))
            && FinalMem(b, i, Twin(s, x), s.mem) == Perform(s, j).mem
  {
    var i, j := TwinInstruction(b, s, x), NextInstruction(b, s);
    SameTouches(i, Twin(s, x), j, s, x);
    NoMmio(b, Touches(j, s.cpu));
  }

  predicate Device(i: Instruction) {
    i.DeviceLoad? || i.DeviceStore?
  }

  function DeviceOpcode(i: Instruction): Byte8 {
    if i.DeviceStore? then 0x88 else 0x8a
  }

  /** The ideal machine decodes a device access exactly where the handler finds its bytes. */
  lemma {:induction false} DeviceBytes(b: Board, s: Ideal)
    requires Allowed(b, s, NextInstruction(b, s)) && Device(NextInstruction(b, s))
    ensures OpcodeAt(b, s.mem, Linear(s.cpu, 0)) == Some(DeviceOpcode(NextInstruction(b, s)))
  {
    var i := NextInstruction(b, s);
    var touches := Touches(i, s.cpu);
    assert touches[0] in touches && touches[1] in touches && touches[2] in touches;
    DecodedBytes(b, s.cpu, s.mem);
    LinearInMemory(b, s.cpu, 0);
    LinearInMemory(b, s.cpu, 1);
    LinearInMemory(b, s.cpu, 2);
    var ip := Linear(s.cpu, 0);
    SmallSum(ip, 1);
    SmallSum(ip, 2);
    assert Linear(s.cpu, 1) == IpPlus(ip, 1) && Linear(s.cpu, 2) == IpPlus(ip, 2);
  }

  lemma SmallSum(ip: U32, k: nat)
    requires ip + k < 0x1_0000_0000
    ensures IpPlus(ip, k) == ip + k
  {
  }

  lemma {:induction false} DecodedBytes(b: Board, v: Vcpu, view: map<nat, Page>)
    requires Device(Decode(b, v, view))
    ensures ByteAt(view, Linear(v, 0)) == 0x67 && ByteAt(view, Linear(v, 2)) == 0x02
    ensures ByteAt(view, Linear(v, 1)) == DeviceOpcode(Decode(b, v, view))
  {
  }

  lemma LinearInMemory(b: Board, v: Vcpu, k: nat)
    requires Readable(b, v, 2) && k <= 2
    ensures Linear(v, k) == v.vmcb.core.cs.base + v.vmcb.rip + k < b.memory
  {
  }

  /** The handler's ip is the ideal machine's. */
  lemma {:induction false} SharedIpIsLinear(v: Vcpu, s: Ideal, x: int)
    requires Clean(v) == Twin(s, x)
    ensures SharedIp(SharedOf(v)) == Linear(s.cpu, 0)
  {
    SameClean(v, Twin(s, x));
    assert Linear(Twin(s, x), 0) == Linear(s.cpu, 0);
  }

  /** The log line reads at the next instruction, which the tool can do. */
  lemma {:induction false} LogReads(b: Board, v: Vcpu, u: Vcpu, mem: map<nat, Page>)
    requires v.vmcb.core == u.vmcb.core && v.vmcb.rip == u.vmcb.rip
    requires Readable(b, u, 0) && !OnMmioPage(b, Linear(u, 0))
    ensures ToolReads(b, mem, LogIndex(SharedOf(v))).Some?
  {
    var a := v.vmcb.core.cs.base + v.vmcb.rip;
    assert 0 <= a < 0x1_0000_0000;
    assert LogIndex(SharedOf(v)) == a && Linear(u, 0) == a;
  }

  lemma {:induction false} CutSmall(v: Vcpu)
    requires SmallBases(v)
    ensures Cut(v) == v
  {
    GetThenSetIff(v);
  }

  /** Moving the emulated vcpu as the ideal one moves. */
  lemma {:induction false} TwinMoves(v: Vcpu, s: Ideal, x: int, rax: int, rip: int, s': Ideal)
    requires Clean(v) == Twin(s, x) && s'.cpu == Jump(WithRax(s.cpu, s'.cpu.vmcb.rax), rip)
    ensures Clean(Jump(WithRax(v, rax), rip)) == Twin(s', rax)
    ensures Clean(Jump(v, rip)) == Twin(s', x)
  {
    SameClean(v, Twin(s, x));
  }

  /** What a supported step comes to when its exit has been handled. */
  ghost predicate Stepped(b: Board, s: Ideal, x: int, v': Vcpu, dev': Devices, halted: bool) {
    && Matches(v', IdealStep(b, s), NextRax(b, s, x))
    && dev' == IdealStep(b, s).dev
    && (halted <==> IdealStep(b, s).halted)
  }

  lemma {:induction false} DeviceHandled(b: Board, s: Ideal, x: int)
    requires Supported(b, s, x) && Device(NextInstruction(b, s))
    ensures !StepAborts(b, s, x)
    ensures var v := WithExit(Twin(s, x), SVM_EXIT_NPF, 0, b.mmioHawk);
            && FinalCpu(b, TwinInstruction(b, s, x), Twin(s, x)) == v
            && OpcodeAt(b, s.mem, SharedIp(SharedOf(v))) == Some(DeviceOpcode(NextInstruction(b, s)))
            && FinalMem(b, TwinInstruction(b, s, x), Twin(s, x), s.mem) == s.mem && Cut(v) == v
  {
    var v := WithExit(Twin(s, x), SVM_EXIT_NPF, 0, b.mmioHawk);
    SupportedEnds(b, s, x);
    DeviceBytes(b, s);
    SharedIpIsLinear(v, s, x);
    CutSmall(v);
  }

  lemma {:induction false} LoadStepped(b: Board, s: Ideal, x: int, v: Vcpu, v': Vcpu, dev': Devices)
    requires NextInstruction(b, s).DeviceLoad? && TwinInstruction(b, s, x).DeviceLoad? && !s.halted
    requires Clean(v) == Twin(s, x) && Cut(v) == v && AccessDone(0x8a, v, s.dev, v', dev')
    ensures Stepped(b, s, x, v', dev', false)
  {
    hide NextInstruction, TwinInstruction;
    SameClean(v, Twin(s, x));
    AlReplaced(s.cpu.vmcb.rax, MmioGet(s.dev));
    TwinMoves(v, s, x, MmioGet(s.dev), RipPlus(v.vmcb.rip, 3), IdealStep(b, s));
  }

  lemma {:induction false} StoreStepped(b: Board, s: Ideal, x: int, v: Vcpu, v': Vcpu, dev': Devices)
    requires NextInstruction(b, s).DeviceStore? && TwinInstruction(b, s, x).DeviceStore? && !s.halted
    requires Clean(v) == Twin(s, x) && x % 256 == Al(s.cpu) && Cut(v) == v && AccessDone(0x88, v, s.dev, v', dev')
    ensures Stepped(b, s, x, v', dev', false)
  {
    SameClean(v, Twin(s, x));
    TwinMoves(v, s, x, x, RipPlus(v.vmcb.rip, 3), IdealStep(b, s));
  }

  lemma {:induction false} PortStepped(b: Board, s: Ideal, x: int, i: Instruction, v: Vcpu, v': Vcpu, dev': Devices)
    requires i.Other? && i.native.PortAccess? && NextInstruction(b, s) == i && TwinInstruction(b, s, x) == i
             && !s.halted
    requires Clean(v) == Twin(s, x) && x % 256 == Al(s.cpu) && Cut(v) == v
    requires PortDone(i.native.io, i.native.next, v, s.dev, v', dev')
    ensures Stepped(b, s, x, v', dev', false)
  {
    SameClean(v, Twin(s, x));
    AlReplaced(s.cpu.vmcb.rax, PioGet(s.dev));
    TwinMoves(v, s, x, PioGet(s.dev), i.native.next, IdealStep(b, s));
  }

  lemma {:induction false} NativeStepped(b: Board, s: Ideal, x: int, i: Native, j: Native)
    requires j.Runs? && SameInstruction(Other(i), Other(j)) && !s.halted
    requires NextInstruction(b, s) == Other(j) && TwinInstruction(b, s, x) == Other(i)
    ensures Stepped(b, s, x, WithExit(i.cpu, SVM_EXIT_DB, 0, 0), s.dev, false)
    ensures i.cpu.vmcb.core == j.cpu.vmcb.core && i.cpu.vmcb.rip == j.cpu.vmcb.rip
  {
    SameClean(WithRax(i.cpu, Al(i.cpu)), WithRax(j.cpu, Al(j.cpu)));
  }

  /** The handler of a supported step does not abort. */
  lemma {:induction false} SupportedDoesNotAbort(b: Board, s: Ideal, x: int)
    requires Supported(b, s, x)
    ensures !StepAborts(b, s, x)
  {
    var i, j := TwinInstruction(b, s, x), NextInstruction(b, s);
    if Device(j) {
      DeviceHandled(b, s, x);
    } else {
      SupportedEnds(b, s, x);
      if j.Other? && j.native.Runs? {
        SameRun(i.native, j.native);
        LogReads(b, ExitCpu(i, Twin(s, x)), j.native.cpu, FinalMem(b, i, Twin(s, x), s.mem));
      }
    }
  }

  lemma {:induction false} SameRun(i: Native, j: Native)
    requires j.Runs? && SameInstruction(Other(i), Other(j))
    ensures i.Runs? && i.cpu.vmcb.core == j.cpu.vmcb.core && i.cpu.vmcb.rip == j.cpu.vmcb.rip
  {
    SameClean(WithRax(i.cpu, Al(i.cpu)), WithRax(j.cpu, Al(j.cpu)));
  }

  /** What it leaves is the ideal machine's next state. */
  lemma {:induction false} SupportedStepDone(b: Board, s: Ideal, x: int, v': Vcpu, dev': Devices, halted: bool)
    requires Supported(b, s, x) && x % 256 == Al(s.cpu) && !s.halted
    requires var i, u := TwinInstruction(b, s, x), Twin(s, x);
             HandlerDone(b, FinalCpu(b, i, u), IoOf(i), FinalMem(b, i, u, s.mem), s.dev, v', dev', halted)
    ensures Stepped(b, s, x, v', dev', halted)
    ensures FinalMem(b, TwinInstruction(b, s, x), Twin(s, x), s.mem) == IdealStep(b, s).mem
  {
    var i, j, u := TwinInstruction(b, s, x), NextInstruction(b, s), Twin(s, x);
    SupportedEnds(b, s, x);
    if Device(j) {
      DeviceStepDone(b, s, x, v', dev', halted);
    } else if j.Other? && j.native.Runs? {
      NativeStepped(b, s, x, i.native, j.native);
    } else if j.Other? {
      CutSmall(ExitCpu(i, u));
      PortStepped(b, s, x, i, ExitCpu(i, u), v', dev');
    }
  }

  lemma {:induction false} DeviceStepDone(b: Board, s: Ideal, x: int, v': Vcpu, dev': Devices, halted: bool)
    requires Supported(b, s, x) && x % 256 == Al(s.cpu) && !s.halted && Device(NextInstruction(b, s))
    requires var i, u := TwinInstruction(b, s, x), Twin(s, x);
             HandlerDone(b, FinalCpu(b, i, u), IoOf(i), FinalMem(b, i, u, s.mem), s.dev, v', dev', halted)
    ensures Stepped(b, s, x, v', dev', halted)
  {
    DeviceHandled(b, s, x);
    var v := WithExit(Twin(s, x), SVM_EXIT_NPF, 0, b.mmioHawk);
    if NextInstruction(b, s).DeviceLoad? {
      LoadStepped(b, s, x, v, v', dev');
    } else {
      StoreStepped(b, s, x, v, v', dev');
    }
  }

  /** An access to the MMIO page elsewhere than at the device aborts, in the driver. */
  lemma {:induction false} OffDeviceAborts(b: Board, s: Ideal, x: int)
    requires var f := FirstOnMmio(b, AllTouches(b, TwinInstruction(b, s, x), Twin(s, x)));
             f.Some? && f.value != b.mmioHawk && OnMmioPage(b, f.value)
    ensures StepAborts(b, s, x)
  {
  }

  // Runs.

  /** Where n steps lead: to a halt, to a step that aborts, or beyond what the tool supports. */
  datatype End = Halts | Crashes | Beyond

  function Ending(b: Board, s: Ideal, x: int, n: nat): End
    decreases n
  {
    if n == 0 then (if s.halted then Halts else if StepAborts(b, s, x) then Crashes else Beyond)
    else if s.halted || !Supported(b, s, x) then Beyond
    else Ending(b, IdealStep(b, s), NextRax(b, s, x), n - 1)
  }

  /** The steps before the last. */
  lemma {:induction false} EndingOfNext(b: Board, s: Ideal, x: int, n: nat)
    requires n > 0 && !s.halted && Supported(b, s, x)
    ensures Ending(b, s, x, n) == Ending(b, IdealStep(b, s), NextRax(b, s, x), n - 1)
  {
  }

  /** A guest whose next byte is HLT halts after one step. */
  lemma {:induction false} HaltEndsRun(b: Board, s: Ideal, x: int)
    requires ByteAt(s.mem, Linear(s.cpu, 0)) == 0xf4 && !s.halted && !OnMmioPage(b, Linear(s.cpu, 0))
    ensures Ending(b, s, x, 1) == Halts
  {
    EmulatedFormIsBlind(b, s, x);
    EndingOfNext(b, s, x, 1);
  }

  /** Where n steps lead, if instructions are held to AL only while the emulated rax may be inexact. */
  ghost function EndingWhileExact(b: Board, s: Ideal, exact: bool, n: nat): End
    decreases n
  {
    if n == 0 then (if s.halted then Halts else Beyond)
    else if s.halted || !Allowed(b, s, NextInstruction(b, s)) || !(exact || AlOnly(b, s)) then Beyond
    else EndingWhileExact(b, IdealStep(b, s), ExactNext(b, s, exact), n - 1)
  }

  /** The same, from a state whose emulated rax is x. */
  ghost function EndingFrom(b: Board, s: Ideal, exact: bool, x: int, n: nat): End {
    if x % 256 == Al(s.cpu) && (exact ==> x == s.cpu.vmcb.rax) then EndingWhileExact(b, s, exact, n) else Beyond
  }

  lemma {:induction false} HaltedAlready(b: Board, s: Ideal, exact: bool, x: int)
    requires EndingFrom(b, s, exact, x, 0) == Halts
    ensures Ending(b, s, x, 0) == Halts
  {
  }

  /** That is enough, whatever the emulated rax is above AL while it is inexact. */
  lemma {:induction false} ExactnessSuffices(b: Board, s: Ideal, exact: bool, x: int, n: nat)
    requires EndingFrom(b, s, exact, x, n) == Halts
    ensures Ending(b, s, x, n) == Halts
    decreases n
  {
    hide Ending, EndingFrom;
    if n == 0 {
      HaltedAlready(b, s, exact, x);
    } else {
      var s', x', exact' := OneStepExact(b, s, exact, x, n);
      ExactnessSuffices(b, s', exact', x', n - 1);
    }
  }

  lemma {:induction false} OneStepExact(b: Board, s: Ideal, exact: bool, x: int, n: nat)
    returns (s': Ideal, x': int, exact': bool)
    requires EndingFrom(b, s, exact, x, n) == Halts && n > 0
    ensures EndingFrom(b, s', exact', x', n - 1) == Halts
    ensures Ending(b, s', x', n - 1) == Ending(b, s, x, n)
  {
    FlagOfNext(b, s, exact, n);
    ExactStep(b, s, exact, x);
    EndingOfNext(b, s, x, n);
    s', x', exact' := IdealStep(b, s), NextRax(b, s, x), ExactNext(b, s, exact);
  }

  lemma {:induction false} FlagOfNext(b: Board, s: Ideal, exact: bool, n: nat)
    requires EndingWhileExact(b, s, exact, n) == Halts && n > 0
    ensures !s.halted && Allowed(b, s, NextInstruction(b, s)) && (exact || AlOnly(b, s))
    ensures EndingWhileExact(b, IdealStep(b, s), ExactNext(b, s, exact), n - 1) == Halts
  {
  }

  /** The pages of ordinary memory that such a run touches. */
  function PagesTouched(b: Board, s: Ideal, x: int, n: nat): set<nat>
    decreases n
  {
    if s.halted then {}
    else if n == 0 then StepPages(b, s, x)
    else StepPages(b, s, x) + PagesTouched(b, IdealStep(b, s), NextRax(b, s, x), n - 1)
  }

  /** After k steps the machine still runs, and its next step touches an address on page g. */
  predicate TouchedAt(b: Board, s: Ideal, x: int, k: nat, g: nat) {
    var s', x' := StepMany(b, s, k), RaxAfter(b, s, x, k);
    !s'.halted && exists a :: a in Touches(TwinInstruction(b, s', x'), Twin(s', x')) && Gpn(a) == g
  }

  /** They are the pages of what the steps of the run touch, the one after the last included. */
  lemma {:induction false} PagesAreTouched(b: Board, s: Ideal, x: int, n: nat, g: nat)
    ensures g in PagesTouched(b, s, x, n) <==> exists k: nat :: k <= n && TouchedAt(b, s, x, k, g)
    decreases n
  {
    hide TwinInstruction, IdealStep, NextRax, Twin, Touches;
    assert TouchedAt(b, s, x, 0, g) <==> !s.halted && g in StepPages(b, s, x);
    if s.halted {
      forall k: nat | TouchedAt(b, s, x, k, g)
        ensures false
      {
        HaltedStays(b, s, k);
      }
    } else if n > 0 {
      var s', x' := IdealStep(b, s), NextRax(b, s, x);
      PagesAreTouched(b, s', x', n - 1, g);
      forall k: nat
        ensures TouchedAt(b, s, x, k + 1, g) <==> TouchedAt(b, s', x', k, g)
      {
      }
      if k: nat :| k <= n && TouchedAt(b, s, x, k, g) {
        assert k > 0 ==> TouchedAt(b, s', x', k - 1, g);
      }
      if k: nat :| k <= n - 1 && TouchedAt(b, s', x', k, g) {
        assert TouchedAt(b, s, x, k + 1, g);
      }
    }
  }

  lemma {:induction false} HaltedStays(b: Board, s: Ideal, k: nat)
    requires s.halted
    ensures StepMany(b, s, k).halted
    decreases k
  {
    if k > 0 {
      HaltedStays(b, IdealStep(b, s), k - 1);
    }
  }

  /** How often it may enter the guest: once a step, once more if it aborts, and once a page. */
  function Budget(b: Board, s: Ideal, x: int, n: nat): nat {
    n + (if Ending(b, s, x, n) == Halts then 0 else 1) + |PagesTouched(b, s, x, n)|
  }

  /** The guest pages whose leaf is in the table. */
  ghost predicate AllMapped(pages: set<nat>, t: Npt) {
    forall g :: g in pages ==> g < TWO_36 && LeafPath(PageAddress(g)) in t.nodes
  }

  /** A run of n steps from (s0, x0) under way: k steps from (s, x) are left, and these pages were faulted in. */
  datatype Progress = Progress(s: Ideal, x: int, k: nat, mapped: set<nat>)

  ghost predicate OnTrack(b: Board, s0: Ideal, x0: int, n: nat, p: Progress, entries: nat, t: Npt) {
    && Ending(b, p.s, p.x, p.k) == Ending(b, s0, x0, n) != Beyond && p.k <= n
    && StepMany(b, p.s, p.k) == StepMany(b, s0, n) && RaxAfter(b, p.s, p.x, p.k) == RaxAfter(b, s0, x0, n)
    && PagesTouched(b, p.s, p.x, p.k) <= PagesTouched(b, s0, x0, n) && p.mapped <= PagesTouched(b, s0, x0, n)
    && AllMapped(p.mapped, t)
    && entries == n - p.k + |p.mapped|
  }

  /** Where a run that is on track will end. */
  ghost function Track(b: Board, s0: Ideal, x0: int, n: nat, p: Progress, entries: nat, t: Npt): Option<End> {
    if OnTrack(b, s0, x0, n, p, entries, t) then Some(Ending(b, s0, x0, n)) else None
  }

  lemma {:induction false} TrackStarts(b: Board, s: Ideal, x: int, n: nat, t: Npt)
    requires Ending(b, s, x, n) != Beyond
    ensures Track(b, s, x, n, Progress(s, x, n, {}), 0, t).Some?
  {
  }

  /** Every entry of the guest is paid for. */
  lemma {:induction false} WithinBudget(b: Board, s0: Ideal, x0: int, n: nat, p: Progress, entries: nat, t: Npt)
    requires Track(b, s0, x0, n, p, entries, t).Some?
    ensures entries <= Budget(b, s0, x0, n)
    ensures !p.s.halted ==> entries < Budget(b, s0, x0, n)
  {
    SubsetSize(p.mapped, PagesTouched(b, s0, x0, n));
  }

  lemma {:induction false} MorePages(b: Board, s: Ideal, x: int, n: nat)
    requires !s.halted
    ensures StepPages(b, s, x) <= PagesTouched(b, s, x, n)
    ensures n > 0 ==> PagesTouched(b, IdealStep(b, s), NextRax(b, s, x), n - 1) <= PagesTouched(b, s, x, n)
  {
  }

  lemma {:induction false} PageFaultedIn(b: Board, s0: Ideal, x0: int, n: nat, p: Progress, entries: nat, t: Npt,
                                         gpa: Word, t': Npt)
    requires Track(b, s0, x0, n, p, entries, t).Some? && !p.s.halted && t.nodes.Keys <= t'.nodes.Keys
    requires Gpn(gpa) in StepPages(b, p.s, p.x) && LeafPath(gpa) !in t.nodes && LeafPath(gpa) in t'.nodes
    ensures Track(b, s0, x0, n, p.(mapped := p.mapped + {Gpn(gpa)}), entries + 1, t').Some?
  {
    hide Ending, StepMany, RaxAfter, PagesTouched, StepPages;
    MorePages(b, p.s, p.x, p.k);
    GpnOfPage(Gpn(gpa));
    SameLeafIffSameGpn(gpa, PageAddress(Gpn(gpa)));
    assert Gpn(gpa) !in p.mapped;
  }

  lemma {:induction false} StepTaken(b: Board, s0: Ideal, x0: int, n: nat, p: Progress, entries: nat, t: Npt, t': Npt)
    requires Track(b, s0, x0, n, p, entries, t).Some? && !p.s.halted && p.k > 0 && t.nodes.Keys <= t'.nodes.Keys
    ensures Supported(b, p.s, p.x)
    ensures var p' := Progress(IdealStep(b, p.s), NextRax(b, p.s, p.x), p.k - 1, p.mapped);
            Track(b, s0, x0, n, p', entries + 1, t').Some?
  {
    MorePages(b, p.s, p.x, p.k);
    StepLeft(b, p.s, p.x, p.k);
    var p' := Progress(IdealStep(b, p.s), NextRax(b, p.s, p.x), p.k - 1, p.mapped);
    Onwards(b, s0, x0, n, p, entries, t, p', t');
  }

  lemma {:induction false} Onwards(b: Board, s0: Ideal, x0: int, n: nat, p: Progress, entries: nat, t: Npt,
                                   p': Progress, t': Npt)
    requires Track(b, s0, x0, n, p, entries, t).Some? && t.nodes.Keys <= t'.nodes.Keys
    requires p'.k == p.k - 1 && p'.mapped == p.mapped && Ending(b, p'.s, p'.x, p'.k) == Ending(b, p.s, p.x, p.k)
    requires StepMany(b, p'.s, p'.k) == StepMany(b, p.s, p.k)
             && RaxAfter(b, p'.s, p'.x, p'.k) == RaxAfter(b, p.s, p.x, p.k)
    requires PagesTouched(b, p'.s, p'.x, p'.k) <= PagesTouched(b, p.s, p.x, p.k)
    ensures Track(b, s0, x0, n, p', entries + 1, t').Some?
  {
    StillMapped(p.mapped, t, t');
  }

  /** With no steps left the machine has halted or its next step aborts; with steps left, the next one is supported. */
  lemma {:induction false} LastStep(b: Board, s0: Ideal, x0: int, n: nat, p: Progress, entries: nat, t: Npt)
    requires Track(b, s0, x0, n, p, entries, t).Some? && !p.s.halted
    ensures p.k == 0 ==> StepAborts(b, p.s, p.x) && Ending(b, s0, x0, n) == Crashes
    ensures p.k > 0 ==> Supported(b, p.s, p.x) && !StepAborts(b, p.s, p.x)
  {
    if p.k > 0 {
      StepLeft(b, p.s, p.x, p.k);
      SupportedDoesNotAbort(b, p.s, p.x);
    }
  }

  lemma {:induction false} HaltedAtEnd(b: Board, s0: Ideal, x0: int, n: nat, p: Progress, entries: nat, t: Npt)
    requires Track(b, s0, x0, n, p, entries, t).Some? && p.s.halted
    ensures Ending(b, s0, x0, n) == Halts && p.s == StepMany(b, s0, n) && p.x == RaxAfter(b, s0, x0, n)
  {
  }

  lemma {:induction false} StepLeft(b: Board, s: Ideal, x: int, k: nat)
    requires Ending(b, s, x, k) != Beyond && k > 0
    ensures Supported(b, s, x) && Ending(b, IdealStep(b, s), NextRax(b, s, x), k - 1) == Ending(b, s, x, k)
    ensures StepMany(b, IdealStep(b, s), k - 1) == StepMany(b, s, k)
    ensures RaxAfter(b, IdealStep(b, s), NextRax(b, s, x), k - 1) == RaxAfter(b, s, x, k)
  {
  }

  lemma StillMapped(pages: set<nat>, t: Npt, t': Npt)
    requires AllMapped(pages, t) && t.nodes.Keys <= t'.nodes.Keys
    ensures AllMapped(pages, t')
  {
  }
}
