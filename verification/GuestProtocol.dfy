/**
 tool/guest.c: what the shipped guest asks of the devices.  It writes a byte and waits for one
 more, at the port, or one less, at the device's address.  These are its instructions, and what
 the ideal machine makes of them from any state.
 */
module GuestProtocol {
  import opened Words
  import opened Address
  import opened PageTable
  import opened WorldSwitch
  import opened VcpuRegisters
  import opened IdealMachine
  import opened ExitHandling

  /** OUT DX, AL; IN AL, DX; HLT. */
  const PORT_PROGRAM: seq<Byte8> := [0xee, 0xec, 0xf4]

  /** MOV [EDX], AL; MOV AL, [EDX]; HLT. */
  const MOVE_PROGRAM: seq<Byte8> := [0x67, 0x88, 0x02, 0x67, 0x8a, 0x02, 0xf4]

  function Start(s: Ideal): int {
    s.cpu.vmcb.core.cs.base + s.cpu.vmcb.rip
  }

  /** The guest is at this code, in memory that the tool can read, off the MMIO page. */
  ghost predicate Placed(b: Board, s: Ideal, code: seq<Byte8>) {
    && CodeAt(s, code) && !s.halted && SmallBases(s.cpu)
    && 0 <= s.cpu.vmcb.rip && Start(s) + |code| + 2 <= b.memory
    && forall a: Word :: Start(s) <= a < Start(s) + |code| + 2 ==> !OnMmioPage(b, a)
  }

  lemma {:induction false} CodeStartsWith(s: Ideal, code: seq<Byte8>, n: nat)
    requires CodeAt(s, code) && n <= |code|
    ensures CodeAt(s, code[..n])
  {
    forall k | 0 <= k < n
      ensures ByteAt(s.mem, (s.cpu.vmcb.core.cs.base + s.cpu.vmcb.rip + k) % 0x1_0000_0000) == code[..n][k]
    {
      assert code[..n][k] == code[k];
    }
  }

  /** After an instruction of n bytes that leaves memory and segments alone, the guest is at the rest of the code. */
  lemma {:induction false} MovedOn(b: Board, s: Ideal, s': Ideal, code: seq<Byte8>, n: nat)
    requires Placed(b, s, code) && n <= |code| && s'.mem == s.mem && s'.halted == s.halted
    requires s'.cpu.vmcb.core == s.cpu.vmcb.core && s'.cpu.vmcb.rip == (s.cpu.vmcb.rip + n) % TWO_64
    ensures s'.cpu.vmcb.rip == s.cpu.vmcb.rip + n && Placed(b, s', code[n..])
  {
    SmallRip(s.cpu.vmcb.rip + n, s.cpu.vmcb.core.cs.base, b.memory);
    CodeGoesOn(s, s', code, n);
  }

  lemma SmallRip(rip: int, base: nat, memory: MemorySize)
    requires 0 <= rip && base + rip <= memory
    ensures rip % TWO_64 == rip
  {
  }

  lemma {:induction false} CodeGoesOn(s: Ideal, s': Ideal, code: seq<Byte8>, n: nat)
    requires CodeAt(s, code) && n <= |code| && s'.mem == s.mem
    requires s'.cpu.vmcb.core == s.cpu.vmcb.core && s'.cpu.vmcb.rip == s.cpu.vmcb.rip + n
    ensures CodeAt(s', code[n..])
  {
    hide ByteAt;
    var ip, ip' := s.cpu.vmcb.core.cs.base + s.cpu.vmcb.rip, s'.cpu.vmcb.core.cs.base + s'.cpu.vmcb.rip;
    forall k | 0 <= k < |code| - n
      ensures ByteAt(s'.mem, (ip' + k) % 0x1_0000_0000) == code[n..][k]
    {
      assert ip' + k == ip + (n + k);
      assert code[n..][k] == code[n + k];
    }
  }

  /** The tool takes this step however rax stands above AL. */
  ghost predicate Blind(b: Board, s: Ideal) {
    !s.halted && Allowed(b, s, NextInstruction(b, s)) && AlOnly(b, s)
  }

  /** At one of the emulated instructions the tool goes on, whatever is in the emulated rax. */
  lemma {:induction false} Goes(b: Board, s: Ideal, x: int, code: seq<Byte8>)
    requires Placed(b, s, code) && code != [] && EmulatedForm(b, s)
    ensures Supported(b, s, x) && TwinInstruction(b, s, x) == NextInstruction(b, s) && Blind(b, s)
  {
    EmulatedFormIsAlOnly(b, s);
    assert Linear(s.cpu, 0) == Start(s) && Linear(s.cpu, 1) == Start(s) + 1 && Linear(s.cpu, 2) == Start(s) + 2;
    EmulatedFormIsBlind(b, s, x);
    EmulatedFormIsSupported(b, s, x);
  }

  lemma {:induction false} FirstByte(s: Ideal, code: seq<Byte8>)
    requires CodeAt(s, code) && code != []
    ensures ByteAt(s.mem, Linear(s.cpu, 0)) == code[0]
  {
  }

  lemma {:induction false} ThreeLead(b: Board, s: Ideal, x: int, s1: Ideal, x1: int, s2: Ideal, x2: int, s3: Ideal,
                                     x3: int)
    requires s1 == IdealStep(b, s) && x1 == NextRax(b, s, x) && Supported(b, s, x) && !s.halted
    requires s2 == IdealStep(b, s1) && x2 == NextRax(b, s1, x1) && Supported(b, s1, x1) && !s1.halted
    requires s3 == IdealStep(b, s2) && x3 == NextRax(b, s2, x2) && Supported(b, s2, x2) && !s2.halted && s3.halted
    ensures StepMany(b, s, 3) == s3 && RaxAfter(b, s, x, 3) == x3 && Ending(b, s, x, 3) == Halts
  {
    hide IdealStep, NextRax, Supported, StepAborts;
    assert Ending(b, s3, x3, 0) == Halts;
    assert Ending(b, s2, x2, 1) == Halts;
    assert Ending(b, s1, x1, 2) == Halts;
    assert StepMany(b, s3, 0) == s3 && StepMany(b, s2, 1) == s3 && StepMany(b, s1, 2) == s3;
    assert RaxAfter(b, s3, x3, 0) == x3 && RaxAfter(b, s2, x2, 1) == x3 && RaxAfter(b, s1, x1, 2) == x3;
  }

  // The two programs.

  /**
   From any state in which dx is the device's port, the guest halts after three steps with one
   more than AL in AL, and what was in AL in the device; the emulated rax holds just that.
   */
  lemma {:induction false} PortProgram(b: Board, s: Ideal, x: int)
    requires Placed(b, s, PORT_PROGRAM) && s.cpu.gctx.rdx % 0x1_0000 == b.pioHawk
    ensures Ending(b, s, x, 3) == Halts && RaxAfter(b, s, x, 3) == (s.cpu.vmcb.rax + 1) % 256
    ensures var f := StepMany(b, s, 3);
            && f.halted && f.mem == s.mem && f.dev == Devices(s.cpu.vmcb.rax % 256, s.dev.mmio)
            && f.cpu.vmcb.rax % 256 == (s.cpu.vmcb.rax + 1) % 256 && f.cpu.vmcb.rax / 256 == s.cpu.vmcb.rax / 256
            && f.cpu == s.cpu.(vmcb := s.cpu.vmcb.(rax := f.cpu.vmcb.rax, rip := s.cpu.vmcb.rip + 2))
  {
    hide IdealStep, NextRax, Supported, StepMany, RaxAfter, Ending, Placed, Blind;
    var s1, x1 := PortOut(b, s, x, PORT_PROGRAM);
    var s2, x2 := PortIn(b, s1, x1, PORT_PROGRAM[1..]);
    var s3, x3 := HaltAt(b, s2, x2, PORT_PROGRAM[1..][1..]);
    ThreeLead(b, s, x, s1, x1, s2, x2, s3, x3);
    CutFirst(s.cpu.vmcb.rax, 1);
  }

  lemma CutFirst(a: int, k: int)
    ensures (a % 256 + k) % 256 == (a + k) % 256
  {
  }

  lemma {:induction false} PortOut(b: Board, s: Ideal, x: int, code: seq<Byte8>) returns (s': Ideal, x': int)
    requires Placed(b, s, code) && code != [] && code[0] == 0xee && s.cpu.gctx.rdx % 0x1_0000 == b.pioHawk
    ensures Supported(b, s, x) && !s.halted && Blind(b, s) && s' == IdealStep(b, s) && x' == NextRax(b, s, x)
    ensures Placed(b, s', code[1..])
    ensures x' == x && s'.mem == s.mem && s'.dev == Devices(s.cpu.vmcb.rax % 256, s.dev.mmio)
    ensures s'.cpu == s.cpu.(vmcb := s.cpu.vmcb.(rip := s.cpu.vmcb.rip + 1))
  {
    s', x' := IdealStep(b, s), NextRax(b, s, x);
    FirstByte(s, code);
    OutStep(b, s);
    Goes(b, s, x, code);
    MovedOn(b, s, s', code, 1);
  }

  lemma {:induction false} PortIn(b: Board, s: Ideal, x: int, code: seq<Byte8>) returns (s': Ideal, x': int)
    requires Placed(b, s, code) && code != [] && code[0] == 0xec && s.cpu.gctx.rdx % 0x1_0000 == b.pioHawk
    ensures Supported(b, s, x) && !s.halted && Blind(b, s) && s' == IdealStep(b, s) && x' == NextRax(b, s, x)
    ensures Placed(b, s', code[1..])
    ensures x' == (s.dev.pio + 1) % 256 && s'.mem == s.mem && s'.dev == s.dev
    ensures s'.cpu.vmcb.rax % 256 == x' && s'.cpu.vmcb.rax / 256 == s.cpu.vmcb.rax / 256
    ensures s'.cpu == s.cpu.(vmcb := s.cpu.vmcb.(rax := s'.cpu.vmcb.rax, rip := s.cpu.vmcb.rip + 1))
  {
    s', x' := IdealStep(b, s), NextRax(b, s, x);
    FirstByte(s, code);
    InStep(b, s);
    Goes(b, s, x, code);
    MovedOn(b, s, s', code, 1);
  }

  lemma {:induction false} HaltAt(b: Board, s: Ideal, x: int, code: seq<Byte8>) returns (s': Ideal, x': int)
    requires Placed(b, s, code) && code != [] && code[0] == 0xf4
    ensures Supported(b, s, x) && !s.halted && Blind(b, s) && s' == IdealStep(b, s) && x' == NextRax(b, s, x)
    ensures s' == s.(halted := true) && x' == x
  {
    s', x' := IdealStep(b, s), NextRax(b, s, x);
    FirstByte(s, code);
    HaltStep(b, s);
    Goes(b, s, x, code);
  }

  /** The same with the device's address in edx, one less, and the ds base at 0. */
  lemma {:induction false} MoveProgram(b: Board, s: Ideal, x: int)
    requires Placed(b, s, MOVE_PROGRAM) && s.cpu.gctx.rdx == b.mmioHawk < 0x1_0000_0000 && s.cpu.vmcb.core.ds.base == 0
    ensures Ending(b, s, x, 3) == Halts && RaxAfter(b, s, x, 3) == (s.cpu.vmcb.rax - 1) % 256
    ensures var f := StepMany(b, s, 3);
            && f.halted && f.mem == s.mem && f.dev == Devices(s.dev.pio, s.cpu.vmcb.rax % 256)
            && f.cpu.vmcb.rax % 256 == (s.cpu.vmcb.rax - 1) % 256 && f.cpu.vmcb.rax / 256 == s.cpu.vmcb.rax / 256
            && f.cpu == s.cpu.(vmcb := s.cpu.vmcb.(rax := f.cpu.vmcb.rax, rip := s.cpu.vmcb.rip + 6))
  {
    hide IdealStep, NextRax, Supported, StepMany, RaxAfter, Ending, Placed, Blind;
    var s1, x1 := MoveOut(b, s, x, MOVE_PROGRAM);
    var s2, x2 := MoveIn(b, s1, x1, MOVE_PROGRAM[3..]);
    var s3, x3 := HaltAt(b, s2, x2, MOVE_PROGRAM[3..][3..]);
    ThreeLead(b, s, x, s1, x1, s2, x2, s3, x3);
    CutFirst(s.cpu.vmcb.rax, -1);
  }

  lemma {:induction false} AtMove(b: Board, s: Ideal, code: seq<Byte8>, opcode: Byte8)
    requires CodeAt(s, code) && |code| >= 3 && code[..3] == [0x67, opcode, 0x02] && opcode in {0x88, 0x8a}
    requires s.cpu.gctx.rdx == b.mmioHawk < 0x1_0000_0000 && s.cpu.vmcb.core.ds.base == 0
    ensures CodeAt(s, [0x67, opcode, 0x02]) && EmulatedForm(b, s)
  {
    CodeStartsWith(s, code, 3);
    MoveBytes(s, opcode);
  }

  lemma {:induction false} MoveOut(b: Board, s: Ideal, x: int, code: seq<Byte8>) returns (s': Ideal, x': int)
    requires Placed(b, s, code) && |code| >= 3 && code[..3] == [0x67, 0x88, 0x02]
    requires s.cpu.gctx.rdx == b.mmioHawk < 0x1_0000_0000 && s.cpu.vmcb.core.ds.base == 0
    ensures Supported(b, s, x) && !s.halted && Blind(b, s) && s' == IdealStep(b, s) && x' == NextRax(b, s, x)
    ensures Placed(b, s', code[3..])
    ensures x' == x && s'.mem == s.mem && s'.dev == Devices(s.dev.pio, s.cpu.vmcb.rax % 256)
    ensures s'.cpu == s.cpu.(vmcb := s.cpu.vmcb.(rip := s.cpu.vmcb.rip + 3))
  {
    hide IdealStep, NextInstruction, TwinInstruction, Supported, OnMmioPage, EmulatedForm, CodeAt, Blind;
    s', x' := IdealStep(b, s), NextRax(b, s, x);
    AtMove(b, s, code, 0x88);
    StoreStep(b, s);
    Goes(b, s, x, code);
    MovedOn(b, s, s', code, 3);
  }

  lemma {:induction false} MoveIn(b: Board, s: Ideal, x: int, code: seq<Byte8>) returns (s': Ideal, x': int)
    requires Placed(b, s, code) && |code| >= 3 && code[..3] == [0x67, 0x8a, 0x02]
    requires s.cpu.gctx.rdx == b.mmioHawk < 0x1_0000_0000 && s.cpu.vmcb.core.ds.base == 0
    ensures Supported(b, s, x) && !s.halted && Blind(b, s) && s' == IdealStep(b, s) && x' == NextRax(b, s, x)
    ensures Placed(b, s', code[3..])
    ensures x' == (s.dev.mmio - 1) % 256 && s'.mem == s.mem && s'.dev == s.dev
    ensures s'.cpu.vmcb.rax % 256 == x' && s'.cpu.vmcb.rax / 256 == s.cpu.vmcb.rax / 256
    ensures s'.cpu == s.cpu.(vmcb := s.cpu.vmcb.(rax := s'.cpu.vmcb.rax, rip := s.cpu.vmcb.rip + 3))
  {
    hide IdealStep, NextInstruction, TwinInstruction, Supported, OnMmioPage, EmulatedForm, CodeAt, Blind;
    s', x' := IdealStep(b, s), NextRax(b, s, x);
    AtMove(b, s, code, 0x8a);
    LoadStep(b, s);
    Goes(b, s, x, code);
    MovedOn(b, s, s', code, 3);
  }

  /** Both meet the condition of the tool's run from its start, whatever becomes of rax above AL. */
  lemma {:induction false} ProgramsAreExactEnough(b: Board, s: Ideal, exact: bool)
    ensures Placed(b, s, PORT_PROGRAM) && s.cpu.gctx.rdx % 0x1_0000 == b.pioHawk ==>
              EndingWhileExact(b, s, exact, 3) == Halts
    ensures Placed(b, s, MOVE_PROGRAM) && s.cpu.gctx.rdx == b.mmioHawk < 0x1_0000_0000
            && s.cpu.vmcb.core.ds.base == 0 ==>
              EndingWhileExact(b, s, exact, 3) == Halts
  {
    hide IdealStep, NextRax, Supported, EndingWhileExact, Placed, ExactNext, Blind;
    if Placed(b, s, PORT_PROGRAM) && s.cpu.gctx.rdx % 0x1_0000 == b.pioHawk {
      var s1, x1 := PortOut(b, s, 0, PORT_PROGRAM);
      var s2, x2 := PortIn(b, s1, x1, PORT_PROGRAM[1..]);
      var s3, x3 := HaltAt(b, s2, x2, PORT_PROGRAM[1..][1..]);
      ThreeExact(b, s, s1, s2, s3, exact);
    }
    if Placed(b, s, MOVE_PROGRAM) && s.cpu.gctx.rdx == b.mmioHawk < 0x1_0000_0000 && s.cpu.vmcb.core.ds.base == 0 {
      var s1, x1 := MoveOut(b, s, 0, MOVE_PROGRAM);
      var s2, x2 := MoveIn(b, s1, x1, MOVE_PROGRAM[3..]);
      var s3, x3 := HaltAt(b, s2, x2, MOVE_PROGRAM[3..][3..]);
      ThreeExact(b, s, s1, s2, s3, exact);
    }
  }

  lemma {:induction false} ThreeExact(b: Board, s: Ideal, s1: Ideal, s2: Ideal, s3: Ideal, exact: bool)
    requires s1 == IdealStep(b, s) && Blind(b, s) && s2 == IdealStep(b, s1) && Blind(b, s1)
    requires s3 == IdealStep(b, s2) && Blind(b, s2) && s3.halted
    ensures EndingWhileExact(b, s, exact, 3) == Halts
  {
    hide IdealStep, NextInstruction, Allowed, AlOnly, ExactNext;
    var e1 := ExactNext(b, s, exact);
    var e2 := ExactNext(b, s1, e1);
    var e3 := ExactNext(b, s2, e2);
    assert EndingWhileExact(b, s3, e3, 0) == Halts;
    assert EndingWhileExact(b, s2, e2, 1) == Halts;
    assert EndingWhileExact(b, s1, e1, 2) == Halts;
  }
}
