/**
 driver/cpu.c: the registers of a vcpu between runs, their transfer to and from userspace,
 and what a guest finds over any history of YAKVM_RUN, YAKVM_GET_REGS and YAKVM_SET_REGS.
 */
module VcpuRegisters {
  import opened Words
  import opened PageTable
  import opened WorldSwitch

  /** `struct registers` (include/cpu.h:19-39); cs and ss have 16 bits. */
  datatype Registers = Registers(rax: int, rbx: int, rcx: int, rdx: int, rdi: int, rsi: int, rbp: int, rsp: int,
                                 r8: int, r9: int, r10: int, r11: int, r12: int, r13: int, r14: int, r15: int,
                                 rip: int, cs: U16, ss: U16)

  /** `struct context` without its VMCB. */
  datatype Context = Context(rbx: int, rcx: int, rdx: int, rdi: int, rsi: int, rbp: int, r8: int,
                             r9: int, r10: int, r11: int, r12: int, r13: int, r14: int, r15: int)

  /** The guest's state in `struct vcpu`: gctx, and the VMCB it points to. */
  datatype Vcpu = Vcpu(gctx: Context, vmcb: Vmcb)

  function RegOf(v: Vcpu, r: Reg): int {
    match r
    case RAX => v.vmcb.rax
    case RSP => v.vmcb.rsp
    case RBX => v.gctx.rbx
    case RCX => v.gctx.rcx
    case RDX => v.gctx.rdx
    case RDI => v.gctx.rdi
    case RSI => v.gctx.rsi
    case RBP => v.gctx.rbp
    case R8 => v.gctx.r8
    case R9 => v.gctx.r9
    case R10 => v.gctx.r10
    case R11 => v.gctx.r11
    case R12 => v.gctx.r12
    case R13 => v.gctx.r13
    case R14 => v.gctx.r14
    case R15 => v.gctx.r15
  }

  /** `yakvm_vcpu_get_regs` (driver/cpu.c:125-143); a segment base is cut to 16 bits. */
  function GetRegs(v: Vcpu): Registers {
    var c := v.gctx;
    Registers(v.vmcb.rax, c.rbx, c.rcx, c.rdx, c.rdi, c.rsi, c.rbp, v.vmcb.rsp,
              c.r8, c.r9, c.r10, c.r11, c.r12, c.r13, c.r14, c.r15, v.vmcb.rip,
              v.vmcb.core.cs.base % 0x1_0000, v.vmcb.core.ss.base % 0x1_0000)
  }

  /** `yakvm_vcpu_set_regs` (driver/cpu.c:167-185). */
  function SetRegs(v: Vcpu, regs: Registers): Vcpu {
    Vcpu(Context(regs.rbx, regs.rcx, regs.rdx, regs.rdi, regs.rsi, regs.rbp, regs.r8,
                 regs.r9, regs.r10, regs.r11, regs.r12, regs.r13, regs.r14, regs.r15),
         v.vmcb.(rax := regs.rax, rsp := regs.rsp, rip := regs.rip, core := WithBases(v.vmcb.core, regs.cs, regs.ss)))
  }

  function WithBases(core: Core, cs: Word, ss: Word): Core {
    core.(cs := core.cs.(base := cs), ss := core.ss.(base := ss))
  }

  predicate SmallBases(v: Vcpu) {
    SmallCore(v.vmcb.core)
  }

  /** What is set is what is got, for every input. */
  lemma {:induction false} SetThenGet(v: Vcpu, regs: Registers)
    ensures GetRegs(SetRegs(v, regs)) == regs
  {
  }

  /** What is left of a vcpu after its registers were read and written back: its bases, cut to 16 bits. */
  function Cut(v: Vcpu): Vcpu {
    var core := v.vmcb.core;
    v.(vmcb := v.vmcb.(core := WithBases(core, core.cs.base % 0x1_0000, core.ss.base % 0x1_0000)))
  }

  /** Writing back what was read changes nothing exactly when both segment bases fit in 16 bits. */
  lemma {:induction false} GetThenSetIff(v: Vcpu)
    ensures SetRegs(v, GetRegs(v)) == Cut(v)
    ensures SetRegs(v, GetRegs(v)) == v <==> SmallBases(v)
  {
    assert Cut(v).vmcb.core.cs.base == v.vmcb.core.cs.base % 0x1_0000;
    assert Cut(v).vmcb.core.ss.base == v.vmcb.core.ss.base % 0x1_0000;
  }

  /** Reading the registers, changing rax and rip, and writing them back. */
  lemma {:induction false} GetChangeSet(v: Vcpu, rax: int, rip: int)
    ensures SetRegs(v, GetRegs(v).(rax := rax, rip := rip)) == Cut(v).(vmcb := Cut(v).vmcb.(rax := rax, rip := rip))
    ensures SetRegs(v, GetRegs(v).(rip := rip)) == Cut(v).(vmcb := Cut(v).vmcb.(rip := rip))
  {
  }

  /** The reset value of cs (driver/cpu.c:317-320) is a base that the transfer loses. */
  lemma {:induction false} ResetBaseIsLost(v: Vcpu)
    requires v.vmcb.core.cs.base == 0xffff_0000
    ensures SetRegs(v, GetRegs(v)) != v && SetRegs(v, GetRegs(v)).vmcb.core.cs.base == 0
  {
    GetThenSetIff(v);
  }

  // Histories.

  datatype Op = RunOp(entry: GuestState, exit: GuestState) | GetOp(got: Registers) | SetOp(regs: Registers)

  /** The guest is entered with what the vcpu holds, and the vcpu then holds what the guest left. */
  ghost predicate Ran(v: Vcpu, entry: GuestState, exit: GuestState, v': Vcpu) {
    && (forall r: Reg :: Get(entry.regs, r) == RegOf(v, r) && RegOf(v', r) == Get(exit.regs, r))
    && entry.rip == v.vmcb.rip && v'.vmcb.rip == exit.rip
    && entry.core == v.vmcb.core && v'.vmcb.core == exit.core
    && entry.extra == v.vmcb.extra && v'.vmcb.extra == exit.extra
    && v'.vmcb.nestedCr3 == v.vmcb.nestedCr3 && v'.vmcb.asid == v.vmcb.asid
  }

  ghost predicate VcpuStep(v: Vcpu, op: Op, v': Vcpu) {
    match op
    case RunOp(entry, exit) => Ran(v, entry, exit, v')
    case GetOp(got) => got == GetRegs(v) && v' == v
    case SetOp(regs) => v' == SetRegs(v, regs)
  }

  ghost predicate History(vs: seq<Vcpu>, ops: seq<Op>) {
    && |vs| == |ops| + 1
    && forall k :: 0 <= k < |ops| ==> VcpuStep(vs[k], ops[k], vs[k + 1])
  }

  /** The machine state of a vcpu: gctx in memory and the VMCB at its address. */
  ghost predicate Holds(m: Machine, gctx: int, pa: int, v: Vcpu) {
    HasVmcb(m.frames, pa) && VmcbAt(m.frames, pa) == v.vmcb && forall r: Reg :: VcpuReg(m, gctx, pa, r) == RegOf(v, r)
  }

  /** The machine code of the world switch implements RunOp. */
  lemma {:induction false} SwitchRuns(m: Machine, gctx: int, hctx: int, pa: int, owned: set<int>,
                                      hs: seq<Reg>, gs: seq<Reg>, back: seq<Reg>, guest: Guest, v: Vcpu, v': Vcpu)
    requires Layout(m, gctx, hctx, pa, owned) && Confined(guest, owned) && Lists(hs, gs, back) && Holds(m, gctx, pa, v)
    requires Exec(m, SwitchCode(hs, gs, back), guest).Some?
    requires Holds(Exec(m, SwitchCode(hs, gs, back), guest).value, gctx, pa, v')
    ensures exists entry :: VcpuStep(v, RunOp(entry, guest(entry)), v')
  {
    var e := EntryState(AtEntry(m, hs, gs));
    forall r: Reg
      ensures Get(e.regs, r) == RegOf(v, r) && RegOf(v', r) == Get(guest(e).regs, r)
    {
      GuestCarried(m, gctx, hctx, pa, owned, hs, gs, back, guest, r);
    }
    GuestCarried(m, gctx, hctx, pa, owned, hs, gs, back, guest, RAX);
    assert VcpuStep(v, RunOp(e, guest(e)), v');
  }

  /** What YAKVM_GET_REGS returns after a run is, register by register, what the guest left. */
  lemma {:induction false} GotIsLeft(v: Vcpu, entry: GuestState, exit: GuestState, v': Vcpu)
    requires VcpuStep(v, RunOp(entry, exit), v')
    ensures var g, left := GetRegs(v'), exit.regs;
            && g.rax == Get(left, RAX) && g.rbx == Get(left, RBX) && g.rcx == Get(left, RCX) && g.rdx == Get(left, RDX)
            && g.rdi == Get(left, RDI) && g.rsi == Get(left, RSI) && g.rbp == Get(left, RBP) && g.rsp == Get(left, RSP)
            && g.r8 == Get(left, R8) && g.r9 == Get(left, R9) && g.r10 == Get(left, R10) && g.r11 == Get(left, R11)
            && g.r12 == Get(left, R12) && g.r13 == Get(left, R13) && g.r14 == Get(left, R14) && g.r15 == Get(left, R15)
            && g.rip == exit.rip && g.cs == exit.core.cs.base % 0x1_0000 && g.ss == exit.core.ss.base % 0x1_0000
  {
    GotIsReg(v');
    hide GetRegs, RegOf;
  }

  /** What YAKVM_SET_REGS was given is, register by register, what the guest is then entered with. */
  lemma {:induction false} SetIsEntered(v: Vcpu, g: Registers, entry: GuestState, exit: GuestState, v': Vcpu)
    requires VcpuStep(SetRegs(v, g), RunOp(entry, exit), v')
    ensures var found := entry.regs;
            && g.rax == Get(found, RAX) && g.rbx == Get(found, RBX) && g.rcx == Get(found, RCX)
            && g.rdx == Get(found, RDX) && g.rdi == Get(found, RDI) && g.rsi == Get(found, RSI)
            && g.rbp == Get(found, RBP) && g.rsp == Get(found, RSP) && g.r8 == Get(found, R8) && g.r9 == Get(found, R9)
            && g.r10 == Get(found, R10) && g.r11 == Get(found, R11) && g.r12 == Get(found, R12)
            && g.r13 == Get(found, R13) && g.r14 == Get(found, R14) && g.r15 == Get(found, R15)
            && g.rip == entry.rip && g.cs == entry.core.cs.base && g.ss == entry.core.ss.base
            && entry.core == WithBases(v.vmcb.core, g.cs, g.ss) && entry.extra == v.vmcb.extra
  {
    SetThenGet(v, g);
    GotIsReg(SetRegs(v, g));
    hide GetRegs, RegOf;
  }

  lemma {:induction false} GotIsReg(v: Vcpu)
    ensures var g := GetRegs(v);
            && g.rax == RegOf(v, RAX) && g.rbx == RegOf(v, RBX) && g.rcx == RegOf(v, RCX) && g.rdx == RegOf(v, RDX)
            && g.rdi == RegOf(v, RDI) && g.rsi == RegOf(v, RSI) && g.rbp == RegOf(v, RBP) && g.rsp == RegOf(v, RSP)
            && g.r8 == RegOf(v, R8) && g.r9 == RegOf(v, R9) && g.r10 == RegOf(v, R10) && g.r11 == RegOf(v, R11)
            && g.r12 == RegOf(v, R12) && g.r13 == RegOf(v, R13) && g.r14 == RegOf(v, R14) && g.r15 == RegOf(v, R15)
            && g.rip == v.vmcb.rip && g.cs == v.vmcb.core.cs.base % 0x1_0000 && g.ss == v.vmcb.core.ss.base % 0x1_0000
  {
  }

  lemma {:induction false} ReadsKeep(vs: seq<Vcpu>, ops: seq<Op>, i: nat, j: nat)
    requires History(vs, ops) && i <= j <= |ops| && forall k :: i <= k < j ==> ops[k].GetOp?
    ensures vs[j] == vs[i]
    decreases j
  {
    if i < j {
      ReadsKeep(vs, ops, i, j - 1);
      assert VcpuStep(vs[j - 1], ops[j - 1], vs[j]);
    }
  }

  /**
   Guest continuity over whole histories: with no SET_REGS between two runs, the guest enters
   the second with exactly the registers and state it left the first with.
   */
  lemma {:induction false} GuestContinues(vs: seq<Vcpu>, ops: seq<Op>, i: nat, j: nat)
    requires History(vs, ops) && i < j < |ops| && ops[i].RunOp? && ops[j].RunOp?
    requires forall k :: i < k < j ==> ops[k].GetOp?
    ensures forall r: Reg :: Get(ops[j].entry.regs, r) == Get(ops[i].exit.regs, r)
    ensures ops[j].entry.rip == ops[i].exit.rip && ops[j].entry.core == ops[i].exit.core
    ensures ops[j].entry.extra == ops[i].exit.extra
  {
    ReadsKeep(vs, ops, i + 1, j);
    assert VcpuStep(vs[i], ops[i], vs[i + 1]) && VcpuStep(vs[j], ops[j], vs[j + 1]);
  }

  /** In every history the table root and the ASID that the vcpu was created with stay its own. */
  lemma {:induction false} IdentityStays(vs: seq<Vcpu>, ops: seq<Op>, k: nat)
    requires History(vs, ops) && k < |vs|
    ensures vs[k].vmcb.nestedCr3 == vs[0].vmcb.nestedCr3 && vs[k].vmcb.asid == vs[0].vmcb.asid
    decreases k
  {
    if k > 0 {
      IdentityStays(vs, ops, k - 1);
      assert VcpuStep(vs[k - 1], ops[k - 1], vs[k]);
    }
  }

  /**
   Over any history in which the guest never leaves a segment base above 16 bits, reading the
   registers and writing them back is lossless at every point.
   */
  lemma {:induction false} SmallBasesStay(vs: seq<Vcpu>, ops: seq<Op>, k: nat)
    requires History(vs, ops) && k < |vs| && SmallBases(vs[0])
    requires forall n :: 0 <= n < k && ops[n].RunOp? ==> SmallCore(ops[n].exit.core)
    ensures SmallBases(vs[k]) && SetRegs(vs[k], GetRegs(vs[k])) == vs[k]
    decreases k
  {
    if k > 0 {
      SmallBasesStay(vs, ops, k - 1);
      assert VcpuStep(vs[k - 1], ops[k - 1], vs[k]);
    }
    GetThenSetIff(vs[k]);
  }

  predicate SmallCore(core: Core) {
    core.cs.base < 0x1_0000 && core.ss.base < 0x1_0000
  }

  /** The tool's first SET_REGS (tool/cpu.c:46-53) establishes small bases, whatever the reset state was. */
  lemma {:induction false} StartHasSmallBases(v: Vcpu, entry: U16, stack: U16)
    ensures var w := SetRegs(v, GetRegs(v).(cs := entry, rip := 0, ss := stack));
            SmallBases(w) && w.vmcb.rip == 0 && w.vmcb.core.cs.base == entry && w.vmcb.core.ss.base == stack
  {
  }

  /** `struct state`: what the kernel shares with userspace after a run (driver/cpu.c:35-46). */
  datatype SharedState = SharedState(exit: ExitInfo, cs: int, rip: int)

  /** The vcpu object; `copies` says whether copy_to_user or copy_from_user succeeds. */
  class VcpuObject {
    var v: Vcpu
    var state: SharedState

    constructor (v: Vcpu)
      ensures this.v == v
    {
      this.v := v;
      state := SharedState(v.vmcb.exit, 0, 0);
    }

    /** `yakvm_vcpu_get_regs`: nothing of the vcpu changes, and what it returns can be written back if it fits. */
    method GetRegsToUser(copies: bool) returns (r: Option<Registers>)
      ensures r.Some? == copies
      ensures r.Some? ==> r.value == GetRegs(v) && (SetRegs(v, r.value) == v <==> SmallBases(v))
    {
      GetThenSetIff(v);
      r := if copies then Some(GetRegs(v)) else None;
    }

    /** `yakvm_vcpu_set_regs`, field by field (driver/cpu.c:161-187): a failed copy changes nothing. */
    method SetRegsFromUser(regs: Registers, copies: bool) returns (ok: bool)
      modifies this`v
      ensures ok == copies
      ensures v == if ok then SetRegs(old(v), regs) else old(v)
    {
      if !copies {
        return false;
      }
      v := v.(vmcb := v.vmcb.(rax := regs.rax));
      v := v.(gctx := v.gctx.(rbx := regs.rbx));
      v := v.(gctx := v.gctx.(rcx := regs.rcx));
      v := v.(gctx := v.gctx.(rdx := regs.rdx));
      v := v.(gctx := v.gctx.(rdi := regs.rdi));
      v := v.(gctx := v.gctx.(rsi := regs.rsi));
      v := v.(gctx := v.gctx.(rbp := regs.rbp));
      v := v.(vmcb := v.vmcb.(rsp := regs.rsp));
      v := v.(gctx := v.gctx.(r8 := regs.r8));
      v := v.(gctx := v.gctx.(r9 := regs.r9));
      v := v.(gctx := v.gctx.(r10 := regs.r10));
      v := v.(gctx := v.gctx.(r11 := regs.r11));
      v := v.(gctx := v.gctx.(r12 := regs.r12));
      v := v.(gctx := v.gctx.(r13 := regs.r13));
      v := v.(gctx := v.gctx.(r14 := regs.r14));
      v := v.(gctx := v.gctx.(r15 := regs.r15));
      v := v.(vmcb := v.vmcb.(rip := regs.rip));
      v := v.(vmcb := v.vmcb.(core := v.vmcb.core.(cs := v.vmcb.core.cs.(base := regs.cs))));
      v := v.(vmcb := v.vmcb.(core := v.vmcb.core.(ss := v.vmcb.core.ss.(base := regs.ss))));
      ok := true;
    }

    /** `yakvm_vcpu_share_err_to_user`: the exit of a run is shared with userspace. */
    method ShareExit()
      modifies this`state
      ensures state == SharedState(v.vmcb.exit, v.vmcb.core.cs.base, v.vmcb.rip)
    {
      state := SharedState(v.vmcb.exit, v.vmcb.core.cs.base, v.vmcb.rip);
    }
  }
}
