/**
 tool/cpu.c: the emulator's handlers and its run loop, over the driver's own npt_create and
 register transfer, as a refinement of the ideal machine.
 */
module Emulator {
  import opened Words
  import opened Address
  import opened PageTable
  import opened NptCreation
  import opened NestedPaging
  import opened WorldSwitch
  import opened VcpuRegisters
  import opened Ioio
  import opened IdealMachine
  import opened Emulation
  import opened ExitHandling
  import opened GuestProtocol

  datatype Mode = RUNNING | HLT

  /** How a handler ends: normally, in an assertion because memory ran out, or in any other failure. */
  datatype Status = Fine | OutOfMemory | Aborted

  /** tool/devices.c. */
  class Hawk {
    var PIO: Byte8
    var MMIO: Byte8

    constructor ()
      ensures Contents() == Devices(0, 0)
    {
      PIO, MMIO := 0, 0;
    }

    function Contents(): Devices
      reads this
    {
      Devices(PIO, MMIO)
    }

    method GetPio() returns (x: Byte8)
      ensures x == PioGet(Contents())
    {
      x := (PIO + 1) % 256;
    }

    method SetPio(x: Byte8)
      modifies this
      ensures Contents() == old(Contents()).(pio := x)
    {
      PIO := x;
    }

    /** An int subtraction, cut to uint8_t. */
    method GetMmio() returns (x: Byte8)
      ensures x == MmioGet(Contents())
    {
      x := (MMIO - 1) % 256;
    }

    method SetMmio(x: Byte8)
      modifies this
      ensures Contents() == old(Contents()).(mmio := x)
    {
      MMIO := x;
    }
  }

  class EmulatorVm {
    const board: Board
    const vmm: Vmm
    const hawk: Hawk
    const vcpu: VcpuObject
    var mode: Mode

    constructor (board: Board, vmm: Vmm, hawk: Hawk, vcpu: VcpuObject)
      ensures this.board == board && this.vmm == vmm && this.hawk == hawk && this.vcpu == vcpu && mode == RUNNING
    {
      this.board, this.vmm, this.hawk, this.vcpu := board, vmm, hawk, vcpu;
      mode := RUNNING;
    }

    // Memory.

    /**
     The page allocations that failed, up to a constant: those asked for less those that gave
     the table a page.
     */
    ghost function Failures(): int
      reads vmm, vmm.mem
    {
      vmm.mem.calls - |vmm.table.nodes|
    }

    /** The guest reads this in memory, and only the MMIO page is intercepted. */
    ghost predicate Shows(mem: map<nat, Page>)
      reads vmm, vmm.mem
    {
      vmm.Valid() && SameMemory(board, vmm.mem.pages, vmm.table, mem)
    }

    /** The same, as a value that contracts pass on whole. */
    ghost function Shown(mem: map<nat, Page>): Verdict
      reads vmm, vmm.mem
    {
      if Shows(mem) then Holds else Fails
    }

    /** YAKVM_MMAP_PAGE, or a fault on the tool's mapping: npt_create at a page (driver/vm.c:98-109, 145-161). */
    method CreatePage(gpa: Word, ghost mem: map<nat, Page>) returns (r: Status, p: Pfn)
      requires Shown(mem) == Holds
      modifies vmm`table, vmm.mem`pages, vmm.mem`calls
      ensures Failures() == old(Failures()) + if r == OutOfMemory then 1 else 0
      ensures Shown(mem) == Holds && old(vmm.table.nodes.Keys) <= vmm.table.nodes.Keys
      ensures r == Aborted <==> OnMmioPage(board, gpa)
      ensures r == Fine ==> LeafPath(gpa) in vmm.table.nodes
      ensures r == Fine ==> p in vmm.mem.pages && vmm.mem.pages[p] == PageIn(mem, gpa)
    {
      ghost var h, t := vmm.mem.pages, vmm.table;
      var page := vmm.NptCreate(gpa, false);
      CreationShows(board, h, t, gpa, vmm.mem.pages, vmm.table, page, mem);
      p := 0;
      match page
      case Panicked => r := Aborted;
      case NoMemory => r := OutOfMemory;
      case Mapped(q) => r, p := Fine, q;
    }

    /** A read of `vm->memory[a]`: outside the mapping it is a fault of the tool. */
    method ReadMemory(a: Word, ghost mem: map<nat, Page>) returns (r: Status, x: Byte8)
      requires Shown(mem) == Holds
      modifies vmm`table, vmm.mem`pages, vmm.mem`calls
      ensures Failures() == old(Failures()) + if r == OutOfMemory then 1 else 0
      ensures Shown(mem) == Holds && old(vmm.table.nodes.Keys) <= vmm.table.nodes.Keys
      ensures match r
              case Fine => ToolReads(board, mem, a) == Some(x)
              case OutOfMemory => ToolReads(board, mem, a).Some?
              case Aborted => ToolReads(board, mem, a) == None
    {
      x := 0;
      if a >= board.memory {
        return Aborted, 0;
      }
      var p;
      r, p := CreatePage(a, mem);
      if r == Fine {
        x := ByteOf(vmm.mem.pages[p], a % PAGE_SIZE);
      }
    }

    /** `assert(vm->memory[a] == x)`. */
    method AssertByte(a: Word, x: Byte8, ghost mem: map<nat, Page>) returns (r: Status)
      requires Shown(mem) == Holds
      modifies vmm`table, vmm.mem`pages, vmm.mem`calls
      ensures Failures() == old(Failures()) + if r == OutOfMemory then 1 else 0
      ensures Shown(mem) == Holds && old(vmm.table.nodes.Keys) <= vmm.table.nodes.Keys
      ensures match r
              case Fine => ToolReads(board, mem, a) == Some(x)
              case OutOfMemory => ToolReads(board, mem, a).Some?
              case Aborted => ToolReads(board, mem, a) != Some(x)
    {
      var y;
      r, y := ReadMemory(a, mem);
      if r == Fine && y != x {
        r := Aborted;
      }
    }

    /** The assertions on the bytes at the instruction pointer (tool/cpu.c:88, 102-117). */
    method ReadOpcode(ip: U32, ghost mem: map<nat, Page>) returns (r: Status, opcode: Byte8)
      requires Shown(mem) == Holds
      modifies vmm`table, vmm.mem`pages, vmm.mem`calls
      ensures Failures() == old(Failures()) + if r == OutOfMemory then 1 else 0
      ensures Shown(mem) == Holds && old(vmm.table.nodes.Keys) <= vmm.table.nodes.Keys
      ensures r == Fine ==> OpcodeAt(board, mem, ip) == Some(opcode)
      ensures r == Aborted ==> OpcodeAt(board, mem, ip) == None
    {
      opcode := 0;
      r := AssertByte(ip, 0x67, mem);
      if r == Fine {
        r, opcode := ReadMove(ip, mem);
      }
    }

    /** The two bytes after the prefix. */
    method ReadMove(ip: U32, ghost mem: map<nat, Page>) returns (r: Status, opcode: Byte8)
      requires Shown(mem) == Holds
      modifies vmm`table, vmm.mem`pages, vmm.mem`calls
      ensures Failures() == old(Failures()) + if r == OutOfMemory then 1 else 0
      ensures Shown(mem) == Holds && old(vmm.table.nodes.Keys) <= vmm.table.nodes.Keys
      ensures r == Fine ==> MoveAt(board, mem, ip) == Some(opcode)
      ensures r == Aborted ==> MoveAt(board, mem, ip) == None
    {
      r, opcode := ReadMemory(IpPlus(ip, 1), mem);
      if r == Fine {
        r := CheckMove(ip, opcode, mem);
      }
    }

    method CheckMove(ip: U32, opcode: Byte8, ghost mem: map<nat, Page>) returns (r: Status)
      requires Shown(mem) == Holds && ToolReads(board, mem, IpPlus(ip, 1)) == Some(opcode)
      modifies vmm`table, vmm.mem`pages, vmm.mem`calls
      ensures Failures() == old(Failures()) + if r == OutOfMemory then 1 else 0
      ensures Shown(mem) == Holds && old(vmm.table.nodes.Keys) <= vmm.table.nodes.Keys
      ensures r == Fine ==> MoveAt(board, mem, ip) == Some(opcode)
      ensures r == Aborted ==> MoveAt(board, mem, ip) == None
    {
      if opcode != 0x88 && opcode != 0x8a {
        return Aborted;
      }
      r := AssertByte(IpPlus(ip, 2), 0x02, mem);
    }

    // Registers and devices.

    /** The two accesses (tool/cpu.c:101-123). */
    method EmulateAccess(opcode: Byte8) returns (r: Status)
      modifies vcpu`v, hawk
      ensures r == if old(vcpu.v).gctx.rdx == board.mmioHawk then Fine else Aborted
      ensures r == Fine ==> AccessDone(opcode, old(vcpu.v), old(hawk.Contents()), vcpu.v, hawk.Contents())
      ensures r == Aborted ==> vcpu.v == old(vcpu.v) && hawk.Contents() == old(hawk.Contents())
    {
      ghost var v := vcpu.v;
      var got := vcpu.GetRegsToUser(true);
      var regs := got.value;
      if regs.rdx != board.mmioHawk {
        return Aborted;
      }
      if opcode == 0x88 {
        hawk.SetMmio(regs.rax % 256);
      } else {
        var x := hawk.GetMmio();
        regs := regs.(rax := x);
      }
      regs := regs.(rip := RipPlus(regs.rip, 3));
      GetChangeSet(v, regs.rax, regs.rip);
      var ok := vcpu.SetRegsFromUser(regs, true);
      r := Fine;
    }

    /** `yakvm_cpu_handle_ioio` (tool/cpu.c:136-163); io is the access that the processor packed. */
    method HandleIoio(ghost io: Io) returns (r: Status)
      requires vcpu.state.exit.info1 == Encode(io)
      modifies vcpu`v, hawk
      ensures r == if io.size == Byte && io.port == board.pioHawk then Fine else Aborted
      ensures r == Fine ==> PortDone(io, vcpu.state.exit.info2, old(vcpu.v), old(hawk.Contents()), vcpu.v,
              hawk.Contents())
    {
      ghost var v := vcpu.v;
      var isIn, size8, port := DecodeInfo(vcpu.state.exit.info1 % 0x1_0000_0000, io);
      if !size8 || port != board.pioHawk {
        return Aborted;
      }
      var got := vcpu.GetRegsToUser(true);
      var regs := got.value;
      if isIn {
        var x := hawk.GetPio();
        regs := regs.(rax := x);
      } else {
        hawk.SetPio(regs.rax % 256);
      }
      regs := regs.(rip := vcpu.state.exit.info2);
      GetChangeSet(v, regs.rax, regs.rip);
      var ok := vcpu.SetRegsFromUser(regs, true);
      r := Fine;
    }

    // Exits.

    /** `yakvm_vcpu_handle_mmio` (tool/cpu.c:77-124). */
    method HandleMmio(ghost mem: map<nat, Page>) returns (r: Status)
      requires Shown(mem) == Holds && vcpu.state == SharedOf(vcpu.v)
      modifies vcpu`v, vmm`table, vmm.mem`pages, vmm.mem`calls, hawk
      ensures Failures() == old(Failures()) + if r == OutOfMemory then 1 else 0
      ensures Shown(mem) == Holds && old(vmm.table.nodes.Keys) <= vmm.table.nodes.Keys
      ensures var opcode := OpcodeAt(board, mem, SharedIp(SharedOf(old(vcpu.v))));
              match r
              case Fine =>
                && opcode.Some? && old(vcpu.v).gctx.rdx == board.mmioHawk
                && AccessDone(opcode.value, old(vcpu.v), old(hawk.Contents()), vcpu.v, hawk.Contents())
              case OutOfMemory => true
              case Aborted => opcode == None || old(vcpu.v).gctx.rdx != board.mmioHawk
    {
      var opcode;
      r, opcode := ReadOpcode(SharedIp(vcpu.state), mem);
      if r == Fine {
        r := EmulateAccess(opcode);
      }
    }

    /** `yakvm_cpu_handle_npf` (tool/cpu.c:126-134). */
    method HandleNpf(ghost mem: map<nat, Page>) returns (r: Status)
      requires Shown(mem) == Holds && vcpu.state == SharedOf(vcpu.v)
      modifies vcpu`v, vmm`table, vmm.mem`pages, vmm.mem`calls, hawk
      ensures Failures() == old(Failures()) + if r == OutOfMemory then 1 else 0
      ensures Shown(mem) == Holds && old(vmm.table.nodes.Keys) <= vmm.table.nodes.Keys
      ensures r == Fine ==> !NpfAborts(board, old(vcpu.v), mem)
      ensures r == Aborted ==> NpfAborts(board, old(vcpu.v), mem)
      ensures r == Fine && old(vcpu.v).vmcb.exit.info2 == board.mmioHawk ==>
                var opcode := OpcodeAt(board, mem, SharedIp(SharedOf(old(vcpu.v))));
                opcode.Some? && AccessDone(opcode.value, old(vcpu.v), old(hawk.Contents()), vcpu.v, hawk.Contents())
      ensures r == Fine && old(vcpu.v).vmcb.exit.info2 != board.mmioHawk ==>
                && vcpu.v == old(vcpu.v) && hawk.Contents() == old(hawk.Contents())
                && LeafPath(vcpu.v.vmcb.exit.info2) in vmm.table.nodes
    {
      if vcpu.state.exit.info2 == board.mmioHawk {
        r := HandleMmio(mem);
      } else {
        SamePage(vcpu.state.exit.info2);
        var p;
        r, p := CreatePage(PageBase(vcpu.state.exit.info2), mem);
      }
    }

    /** The log line, which reads the byte at the next instruction (tool/cpu.c:172-178). */
    method LogInstruction(ghost mem: map<nat, Page>) returns (r: Status)
      requires Shown(mem) == Holds
      modifies vmm`table, vmm.mem`pages, vmm.mem`calls
      ensures Failures() == old(Failures()) + if r == OutOfMemory then 1 else 0
      ensures Shown(mem) == Holds && old(vmm.table.nodes.Keys) <= vmm.table.nodes.Keys
      ensures match r
              case Fine => ToolReads(board, mem, LogIndex(vcpu.state)).Some?
              case OutOfMemory => true
              case Aborted => ToolReads(board, mem, LogIndex(vcpu.state)) == None
    {
      var x;
      r, x := ReadMemory(LogIndex(vcpu.state), mem);
    }

    /** `yakvm_cpu_handle_exit` (tool/cpu.c:165-195); -EINVAL fails the assertion on it in the loop. */
    method HandleExit(ghost io: Io, ghost mem: map<nat, Page>) returns (r: Status)
      requires Shown(mem) == Holds && vcpu.state == SharedOf(vcpu.v) && mode == RUNNING
      requires vcpu.v.vmcb.exit.code == SVM_EXIT_IOIO ==> vcpu.v.vmcb.exit.info1 == Encode(io)
      modifies vcpu`v, this`mode, vmm`table, vmm.mem`pages, vmm.mem`calls, hawk
      ensures Failures() == old(Failures()) + if r == OutOfMemory then 1 else 0
      ensures Shown(mem) == Holds && old(vmm.table.nodes.Keys) <= vmm.table.nodes.Keys
      ensures match r
              case Fine =>
                && !HandlerAborts(board, old(vcpu.v), io, mem)
                && Afterwards(board, old(vcpu.v), io, mem, old(hawk.Contents()), vcpu.v, hawk.Contents(),
                              mode == HLT) == Holds
                && (Pages(old(vcpu.v)) ==> LeafPath(old(vcpu.v).vmcb.exit.info2) in vmm.table.nodes)
              case OutOfMemory => true
              case Aborted => HandlerAborts(board, old(vcpu.v), io, mem)
    {
      if vcpu.state.exit.code == SVM_EXIT_NPF {
        r := HandlePageFault(io, mem);
      } else if vcpu.state.exit.code == SVM_EXIT_DB {
        r := HandleTrap(io, mem);
      } else {
        r := HandleOther(io, mem);
      }
    }

    /** The case of a trap after an instruction. */
    method HandleTrap(ghost io: Io, ghost mem: map<nat, Page>) returns (r: Status)
      requires Shown(mem) == Holds && vcpu.state == SharedOf(vcpu.v) && mode == RUNNING
      requires vcpu.v.vmcb.exit.code == SVM_EXIT_DB
      modifies vmm`table, vmm.mem`pages, vmm.mem`calls
      ensures Failures() == old(Failures()) + if r == OutOfMemory then 1 else 0
      ensures Shown(mem) == Holds && old(vmm.table.nodes.Keys) <= vmm.table.nodes.Keys
      ensures match r
              case Fine =>
                && !HandlerAborts(board, vcpu.v, io, mem)
                && Afterwards(board, vcpu.v, io, mem, hawk.Contents(), vcpu.v, hawk.Contents(), mode == HLT) == Holds
              case OutOfMemory => true
              case Aborted => HandlerAborts(board, vcpu.v, io, mem)
    {
      hide Shows, ToolReads, NpfAborts, AccessDone, PortDone;
      r := LogInstruction(mem);
    }

    /** The case of a nested page fault. */
    method HandlePageFault(ghost io: Io, ghost mem: map<nat, Page>) returns (r: Status)
      requires Shown(mem) == Holds && vcpu.state == SharedOf(vcpu.v) && mode == RUNNING
      requires vcpu.v.vmcb.exit.code == SVM_EXIT_NPF
      modifies vcpu`v, vmm`table, vmm.mem`pages, vmm.mem`calls, hawk
      ensures Failures() == old(Failures()) + if r == OutOfMemory then 1 else 0
      ensures Shown(mem) == Holds && old(vmm.table.nodes.Keys) <= vmm.table.nodes.Keys
      ensures match r
              case Fine =>
                && !HandlerAborts(board, old(vcpu.v), io, mem)
                && Afterwards(board, old(vcpu.v), io, mem, old(hawk.Contents()), vcpu.v, hawk.Contents(),
                              mode == HLT) == Holds
                && (Pages(old(vcpu.v)) ==> LeafPath(old(vcpu.v).vmcb.exit.info2) in vmm.table.nodes)
              case OutOfMemory => true
              case Aborted => HandlerAborts(board, old(vcpu.v), io, mem)
    {
      r := HandleNpf(mem);
    }

    /** The cases HLT, IOIO and default, which do not touch memory (tool/cpu.c:180-191). */
    method HandleOther(ghost io: Io, ghost mem: map<nat, Page>) returns (r: Status)
      requires vcpu.state == SharedOf(vcpu.v) && mode == RUNNING
      requires vcpu.v.vmcb.exit.code !in {SVM_EXIT_NPF, SVM_EXIT_DB}
      requires vcpu.v.vmcb.exit.code == SVM_EXIT_IOIO ==> vcpu.v.vmcb.exit.info1 == Encode(io)
      modifies vcpu`v, this`mode, hawk
      ensures r == if HandlerAborts(board, old(vcpu.v), io, mem) then Aborted else Fine
      ensures r == Fine ==> Afterwards(board, old(vcpu.v), io, mem, old(hawk.Contents()), vcpu.v, hawk.Contents(),
                                  mode == HLT) == Holds
    {
      r := Fine;
      if vcpu.state.exit.code == SVM_EXIT_HLT {
        mode := HLT;
      } else if vcpu.state.exit.code == SVM_EXIT_IOIO {
        r := HandleIoio(io);
      } else {
        r := Aborted;
      }
    }

    /** The exit asks for a page. */
    predicate Pages(v: Vcpu) {
      v.vmcb.exit.code == SVM_EXIT_NPF && v.vmcb.exit.info2 != board.mmioHawk
    }

    // Runs.

    /** The machine is in a state that the ideal machine's s stands for, with x in rax. */
    ghost predicate Simulates(s: Ideal, x: int)
      reads this, vmm, vmm.mem, hawk, vcpu
    {
      && vmm.Valid() && Agrees(board, vcpu.v, vmm.mem.pages, vmm.table, hawk.Contents(), s, x)
      && (mode == HLT <==> s.halted)
    }

    /** YAKVM_RUN (driver/cpu.c:53-116), in terms of what the world switch does to the vcpu. */
    method RunVcpu()
      requires vmm.Valid()
      modifies vcpu, vmm.mem`pages
      ensures Failures() == old(Failures())
      ensures Exited(vcpu.v, vmm.mem.pages) == GuestRuns(board, old(vcpu.v), old(vmm.mem.pages), vmm.table.root)
      ensures EntryPfn(vmm.ncr3) == vmm.table.root
      ensures vcpu.state == SharedOf(vcpu.v)
    {
      var e := GuestRuns(board, vcpu.v, vmm.mem.pages, EntryPfn(vmm.ncr3));
      vcpu.v, vmm.mem.pages := e.cpu, e.h;
      vcpu.ShareExit();
    }

    /** An entry ends at a missing page, or as the step of the ideal machine beside it ends. */
    method EnterGuest(ghost s: Ideal, ghost x: int) returns (ghost stop: Stop)
      requires Simulates(s, x)
      modifies vcpu, vmm.mem`pages
      ensures Failures() == old(Failures())
      ensures vcpu.state == SharedOf(vcpu.v) && vmm.Valid()
      ensures stop == NextStop(board, old(vcpu.v), old(vmm.mem.pages), vmm.table.root, s, x)
      ensures AtStop(board, Exited(vcpu.v, vmm.mem.pages), vmm.table, s, x, stop) == Holds
    {
      hide GuestRuns;
      ghost var e;
      e, stop := EntryOfTwin(board, vcpu.v, vmm.mem.pages, vmm.table, hawk.Contents(), s, x);
      RunVcpu();
      assert Exited(vcpu.v, vmm.mem.pages) == e;
    }

    /** The handler at a missing page maps it; otherwise it aborts or does the step of the ideal machine. */
    method FinishEntry(ghost s: Ideal, ghost x: int, ghost stop: Stop) returns (r: Status)
      requires vcpu.state == SharedOf(vcpu.v) && mode == RUNNING && hawk.Contents() == s.dev
      requires !s.halted && x % 256 == Al(s.cpu)
      requires vmm.Valid()
      requires AtStop(board, Exited(vcpu.v, vmm.mem.pages), vmm.table, s, x, stop) == Holds
      modifies vcpu`v, this`mode, vmm`table, vmm.mem`pages, vmm.mem`calls, hawk
      ensures Failures() == old(Failures()) + if r == OutOfMemory then 1 else 0
      ensures vmm.Valid() && old(vmm.table.nodes.Keys) <= vmm.table.nodes.Keys
      ensures stop.Missing? ==> r != Aborted && (r == Fine ==> Simulates(s, x) && LeafPath(stop.gpa) in vmm.table.nodes)
      ensures !stop.Missing? && r == Aborted ==> StepAborts(board, s, x)
      ensures !stop.Missing? && r == Fine ==> !StepAborts(board, s, x)
      ensures !stop.Missing? && r == Fine && Supported(board, s, x) ==>
                Simulates(IdealStep(board, s), NextRax(board, s, x))
    {
      ghost var i := TwinInstruction(board, s, x);
      ExitReportsIo(board, i, Twin(s, x));
      ghost var v, dev := vcpu.v, hawk.Contents();
      r := HandleExit(IoOf(i), if stop.Missing? then s.mem else FinalMem(board, i, Twin(s, x), s.mem));
      if r == Fine && !stop.Missing? && Supported(board, s, x) {
        SupportedStepDone(board, s, x, vcpu.v, hawk.Contents(), mode == HLT);
      }
    }

    /** One iteration of the loop on any machine: it maps a page, aborts, or does the next step. */
    method Iterate(ghost s: Ideal, ghost x: int) returns (r: Status, ghost stop: Stop)
      requires Simulates(s, x) && mode == RUNNING
      modifies vcpu, this`mode, vmm`table, vmm.mem`pages, vmm.mem`calls, hawk
      ensures Failures() == old(Failures()) + if r == OutOfMemory then 1 else 0
      ensures vmm.Valid() && old(vmm.table.nodes.Keys) <= vmm.table.nodes.Keys
      ensures stop.Missing? ==> r != Aborted && Gpn(stop.gpa) in StepPages(board, s, x)
      ensures stop.Missing? ==> LeafPath(stop.gpa) !in old(vmm.table.nodes)
      ensures stop.Missing? && r == Fine ==> Simulates(s, x) && LeafPath(stop.gpa) in vmm.table.nodes
      ensures !stop.Missing? && r == Aborted ==> StepAborts(board, s, x)
      ensures !stop.Missing? && r == Fine ==> !StepAborts(board, s, x)
      ensures !stop.Missing? && r == Fine && Supported(board, s, x) ==>
                Simulates(IdealStep(board, s), NextRax(board, s, x))
    {
      hide AtFinal, StepAborts, Supported, SameMemory, IdealStep, NextRax;
      stop := EnterGuest(s, x);
      r := FinishEntry(s, x, stop);
    }

    /** An iteration that does not end the run does the next step or maps one of the pages it touches. */
    method Advance(ghost s0: Ideal, ghost x0: int, ghost n: nat, ghost p: Progress, ghost entries: nat)
      returns (r: Status, ghost p': Progress)
      requires Simulates(p.s, p.x) && mode == RUNNING && Track(board, s0, x0, n, p, entries, vmm.table).Some?
      modifies vcpu, this`mode, vmm`table, vmm.mem`pages, vmm.mem`calls, hawk
      ensures Failures() == old(Failures()) + if r == OutOfMemory then 1 else 0
      ensures vmm.Valid()
      ensures r == Aborted ==> Ending(board, s0, x0, n) == Crashes
      ensures r == Fine ==> Simulates(p'.s, p'.x) && Track(board, s0, x0, n, p', entries + 1, vmm.table).Some?
    {
      ghost var t := vmm.table;
      ghost var stop;
      LastStep(board, s0, x0, n, p, entries, t);
      r, stop := Iterate(p.s, p.x);
      p' := p;
      if r == Fine {
        if stop.Missing? {
          PageFaultedIn(board, s0, x0, n, p, entries, t, stop.gpa, vmm.table);
          p' := p.(mapped := p.mapped + {Gpn(stop.gpa)});
        } else {
          StepTaken(board, s0, x0, n, p, entries, t, vmm.table);
          p' := Progress(IdealStep(board, p.s), NextRax(board, p.s, p.x), p.k - 1, p.mapped);
        }
      }
    }

    /**
     `yakvm_cpu_run` (tool/cpu.c:203-209), for a guest whose first n steps are supported and
     which then has halted or is at a step that aborts: unless memory runs out, the loop ends
     in the ideal machine's final state exactly when that has halted, and aborts exactly when
     it has not.  It enters the guest at most once a step and once a page.
     */
    method Run(ghost s0: Ideal, ghost x0: int, ghost n: nat) returns (r: Status, ghost entries: nat)
      requires Simulates(s0, x0) && Ending(board, s0, x0, n) != Beyond
      modifies vcpu, this`mode, vmm`table, vmm.mem`pages, vmm.mem`calls, hawk
      ensures Failures() == old(Failures()) + if r == OutOfMemory then 1 else 0
      ensures Failures() == old(Failures()) ==> (r == Fine <==> Ending(board, s0, x0, n) == Halts)
      ensures r == Fine ==> Ending(board, s0, x0, n) == Halts
      ensures r == Fine ==> mode == HLT && Simulates(StepMany(board, s0, n), RaxAfter(board, s0, x0, n))
      ensures r == Aborted ==> Ending(board, s0, x0, n) == Crashes
      ensures entries <= n + 1 + |PagesTouched(board, s0, x0, n)|
      ensures Ending(board, s0, x0, n) == Halts ==> entries <= n + |PagesTouched(board, s0, x0, n)|
    {
      ghost var p;
      r, p, entries := Loop(s0, x0, n);
      if r == Fine {
        HaltedAtEnd(board, s0, x0, n, p, entries, vmm.table);
      }
    }

    /** The loop, with the progress it has made when it stops. */
    method Loop(ghost s0: Ideal, ghost x0: int, ghost n: nat) returns (r: Status, ghost p: Progress, ghost entries: nat)
      requires Simulates(s0, x0) && Ending(board, s0, x0, n) != Beyond
      modifies vcpu, this`mode, vmm`table, vmm.mem`pages, vmm.mem`calls, hawk
      ensures Failures() == old(Failures()) + if r == OutOfMemory then 1 else 0
      ensures r == Fine ==> mode == HLT && Simulates(p.s, p.x)
      ensures r == Fine ==> Track(board, s0, x0, n, p, entries, vmm.table).Some?
      ensures r == Aborted ==> Ending(board, s0, x0, n) == Crashes
      ensures entries <= Budget(board, s0, x0, n)
    {
      entries := 0;
      p := Progress(s0, x0, n, {});
      TrackStarts(board, s0, x0, n, vmm.table);
      r := Fine;
      while mode == RUNNING
        invariant r == Fine && Simulates(p.s, p.x) && Track(board, s0, x0, n, p, entries, vmm.table).Some?
        invariant Failures() == old(Failures())
        decreases Budget(board, s0, x0, n) - entries
      {
        WithinBudget(board, s0, x0, n, p, entries, vmm.table);
        r, p := Advance(s0, x0, n, p, entries);
        entries := entries + 1;
        if r != Fine {
          return;
        }
      }
      WithinBudget(board, s0, x0, n, p, entries, vmm.table);
    }

    /**
     The theorem from the tool's start: the ideal machine starts with the vcpu's registers and what
     the guest's memory holds.
     */
    method RunFromStart(ghost n: nat) returns (r: Status, ghost entries: nat)
      requires vmm.Valid() && vmm.table.hidden == {LeafPath(board.mmioHawk)} && mode == RUNNING
      requires EndingWhileExact(board, StartState(), true, n) == Halts
      modifies vcpu, this`mode, vmm`table, vmm.mem`pages, vmm.mem`calls, hawk
      ensures Failures() == old(Failures()) + if r == OutOfMemory then 1 else 0
      ensures Failures() == old(Failures()) <==> r == Fine
      ensures r != Aborted
      ensures r == Fine ==>
                var x := old(RaxAfter(board, StartState(), vcpu.v.vmcb.rax, n));
                mode == HLT && Simulates(old(StepMany(board, StartState(), n)), x)
      ensures entries <= n + |old(PagesTouched(board, StartState(), vcpu.v.vmcb.rax, n))|
    {
      ghost var s := StartState();
      StartAgrees(board, vcpu.v, vmm.mem.pages, vmm.table, hawk.Contents());
      ExactnessSuffices(board, s, true, vcpu.v.vmcb.rax, n);
      r, entries := Run(s, vcpu.v.vmcb.rax, n);
    }

    /**
     A guest at the port program of tool/guest.c (lines 7-11, 20): unless a page allocation fails,
     the tool ends with its byte in the device, and one more than that in rax.
     */
    method RunPortProgram(ghost s: Ideal, ghost x: int) returns (r: Status)
      requires Simulates(s, x) && Placed(board, s, PORT_PROGRAM) && s.cpu.gctx.rdx % 0x1_0000 == board.pioHawk
      modifies vcpu, this`mode, vmm`table, vmm.mem`pages, vmm.mem`calls, hawk
      ensures r != Aborted && (Failures() == old(Failures()) <==> r == Fine)
      ensures r == Fine ==> mode == HLT && hawk.PIO == old(vcpu.v.vmcb.rax) % 256 && hawk.MMIO == old(hawk.MMIO)
      ensures r == Fine ==> vcpu.v.vmcb.rax == (old(vcpu.v.vmcb.rax) + 1) % 256
    {
      hide Placed, Ending, StepMany, RaxAfter, SameMemory, Matches, PagesTouched;
      PortHalts(board, s, x);
      ghost var v, dev := vcpu.v, hawk.Contents();
      ghost var entries;
      r, entries := Run(s, x, 3);
      if r == Fine {
        PortEnds(board, s, x, v, dev, vcpu.v, hawk.Contents());
      }
    }

    /** A guest at its moves (lines 14-20): one less, at the device's address. */
    method RunMoveProgram(ghost s: Ideal, ghost x: int) returns (r: Status)
      requires Simulates(s, x) && Placed(board, s, MOVE_PROGRAM)
      requires s.cpu.gctx.rdx == board.mmioHawk < 0x1_0000_0000 && s.cpu.vmcb.core.ds.base == 0
      modifies vcpu, this`mode, vmm`table, vmm.mem`pages, vmm.mem`calls, hawk
      ensures r != Aborted && (Failures() == old(Failures()) <==> r == Fine)
      ensures r == Fine ==> mode == HLT && hawk.MMIO == old(vcpu.v.vmcb.rax) % 256 && hawk.PIO == old(hawk.PIO)
      ensures r == Fine ==> vcpu.v.vmcb.rax == (old(vcpu.v.vmcb.rax) - 1) % 256
    {
      hide Placed, Ending, StepMany, RaxAfter, SameMemory, Matches, PagesTouched;
      MoveHalts(board, s, x);
      ghost var v, dev := vcpu.v, hawk.Contents();
      ghost var entries;
      r, entries := Run(s, x, 3);
      if r == Fine {
        MoveEnds(board, s, x, v, dev, vcpu.v, hawk.Contents());
      }
    }

    ghost function StartState(): Ideal
      reads this, vmm, vmm.mem, vcpu, hawk
    {
      Ideal(vcpu.v, View(vmm.mem.pages, vmm.table.root), hawk.Contents(), false)
    }
  }

  /** The emulated rax is x, and agrees with the ideal AL. */
  lemma {:induction false} SameAl(v: Vcpu, s: Ideal, x: int)
    requires Matches(v, s, x)
    ensures v.vmcb.rax == x && v.vmcb.rax % 256 == s.cpu.vmcb.rax % 256
  {
    SameClean(v, Twin(s, x));
  }

  lemma {:induction false} PortHalts(b: Board, s: Ideal, x: int)
    requires Placed(b, s, PORT_PROGRAM) && s.cpu.gctx.rdx % 0x1_0000 == b.pioHawk
    ensures Ending(b, s, x, 3) == Halts
  {
    PortProgram(b, s, x);
  }

  lemma {:induction false} PortLeaves(b: Board, s: Ideal, x: int)
    requires Placed(b, s, PORT_PROGRAM) && s.cpu.gctx.rdx % 0x1_0000 == b.pioHawk
    ensures RaxAfter(b, s, x, 3) == (s.cpu.vmcb.rax + 1) % 256
    ensures StepMany(b, s, 3).dev == Devices(s.cpu.vmcb.rax % 256, s.dev.mmio)
  {
    PortProgram(b, s, x);
  }

  lemma {:induction false} PortEnds(b: Board, s: Ideal, x: int, v: Vcpu, dev: Devices, v': Vcpu, dev': Devices)
    requires Placed(b, s, PORT_PROGRAM) && s.cpu.gctx.rdx % 0x1_0000 == b.pioHawk
    requires Matches(v, s, x) && dev == s.dev
    requires Matches(v', StepMany(b, s, 3), RaxAfter(b, s, x, 3)) && dev' == StepMany(b, s, 3).dev
    ensures v'.vmcb.rax == (v.vmcb.rax + 1) % 256 && dev' == Devices(v.vmcb.rax % 256, dev.mmio)
  {
    hide Placed, StepMany, RaxAfter, Matches;
    SameAl(v, s, x);
    SameAl(v', StepMany(b, s, 3), RaxAfter(b, s, x, 3));
    PortLeaves(b, s, x);
    SameNext(v.vmcb.rax, s.cpu.vmcb.rax, 1);
  }

  lemma {:induction false} MoveHalts(b: Board, s: Ideal, x: int)
    requires Placed(b, s, MOVE_PROGRAM) && s.cpu.gctx.rdx == b.mmioHawk < 0x1_0000_0000 && s.cpu.vmcb.core.ds.base == 0
    ensures Ending(b, s, x, 3) == Halts
  {
    MoveProgram(b, s, x);
  }

  lemma {:induction false} MoveLeaves(b: Board, s: Ideal, x: int)
    requires Placed(b, s, MOVE_PROGRAM) && s.cpu.gctx.rdx == b.mmioHawk < 0x1_0000_0000 && s.cpu.vmcb.core.ds.base == 0
    ensures RaxAfter(b, s, x, 3) == (s.cpu.vmcb.rax - 1) % 256
    ensures StepMany(b, s, 3).dev == Devices(s.dev.pio, s.cpu.vmcb.rax % 256)
  {
    MoveProgram(b, s, x);
  }

  lemma {:induction false} MoveEnds(b: Board, s: Ideal, x: int, v: Vcpu, dev: Devices, v': Vcpu, dev': Devices)
    requires Placed(b, s, MOVE_PROGRAM) && s.cpu.gctx.rdx == b.mmioHawk < 0x1_0000_0000 && s.cpu.vmcb.core.ds.base == 0
    requires Matches(v, s, x) && dev == s.dev
    requires Matches(v', StepMany(b, s, 3), RaxAfter(b, s, x, 3)) && dev' == StepMany(b, s, 3).dev
    ensures v'.vmcb.rax == (v.vmcb.rax - 1) % 256 && dev' == Devices(dev.pio, v.vmcb.rax % 256)
  {
    hide Placed, StepMany, RaxAfter, Matches;
    SameAl(v, s, x);
    SameAl(v', StepMany(b, s, 3), RaxAfter(b, s, x, 3));
    MoveLeaves(b, s, x);
    SameNext(v.vmcb.rax, s.cpu.vmcb.rax, -1);
  }

  lemma SameNext(a: int, b: int, k: int)
    requires a % 256 == b % 256
    ensures (a + k) % 256 == (b + k) % 256
  {
    assert (a + k) % 256 == (a % 256 + k) % 256 && (b + k) % 256 == (b % 256 + k) % 256;
  }
}
