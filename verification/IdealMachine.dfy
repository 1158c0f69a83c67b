/**
 The machine that the emulator stands for: a guest in fully present memory, with the two
 devices attached directly.

 What guest instructions do is left open, except for the forms that the tool emulates:
 IN and OUT on the device's port, HLT, and the two 3-byte moves between AL and the
 device's address.
 */
module IdealMachine {
  import opened Words
  import opened Address
  import opened PageTable
  import opened WorldSwitch
  import opened VcpuRegisters
  import opened Ioio

  type Byte8 = b: nat | b < 256

  // Devices (tool/devices.c).

  datatype Devices = Devices(pio: Byte8, mmio: Byte8)

  function PioGet(d: Devices): Byte8 {
    (d.pio + 1) % 256
  }

  function MmioGet(d: Devices): Byte8 {
    (d.mmio + 255) % 256
  }

  /** What a guest that follows the devices' protocol relies on: one more, and one less, than was written. */
  lemma DevicesCount(d: Devices, b: Byte8)
    ensures PioGet(d.(pio := b)) == (if b == 255 then 0 else b + 1)
    ensures MmioGet(d.(mmio := b)) == (if b == 0 then 255 else b - 1)
    ensures PioGet(d.(mmio := MmioGet(d))) == PioGet(d) && MmioGet(d.(pio := PioGet(d))) == MmioGet(d)
  {
  }

  // Memory as the guest sees it.

  type PageNumber = n: nat | n < TWO_36

  function PageAddress(n: PageNumber): Word {
    n * PAGE_SIZE
  }

  function PageIn(view: map<nat, Page>, gpa: Word): Page {
    if Gpn(gpa) in view then view[Gpn(gpa)] else ZeroPage()
  }

  /** The k-th byte of a word, lowest first. */
  function NthByte(w: nat, k: nat): Byte8 {
    if k == 0 then w % 256 else NthByte(w / 256, k - 1)
  }

  function ByteOf(page: Page, offset: nat): Byte8
    requires offset < PAGE_SIZE
  {
    NthByte(page[offset / 8], offset % 8)
  }

  function ByteAt(view: map<nat, Page>, gpa: Word): Byte8 {
    ByteOf(PageIn(view, gpa), gpa % PAGE_SIZE)
  }

  /** The bytes of a page make up its words, lowest first. */
  lemma {:induction false} BytesMakeWord(page: Page, i: nat)
    requires i < PTRS_PER_PAGE
    ensures page[i] == ByteOf(page, 8 * i) + 0x100 * ByteOf(page, 8 * i + 1) + 0x1_0000 * ByteOf(page, 8 * i + 2)
                       + 0x100_0000 * ByteOf(page, 8 * i + 3) + 0x1_0000_0000 * ByteOf(page, 8 * i + 4)
                       + 0x100_0000_0000 * ByteOf(page, 8 * i + 5) + 0x1_0000_0000_0000 * ByteOf(page, 8 * i + 6)
                       + 0x100_0000_0000_0000 * ByteOf(page, 8 * i + 7)
  {
    hide NthByte;
    EightBytes(page[i]);
    forall k: nat | k < 8
      ensures ByteOf(page, 8 * i + k) == NthByte(page[i], k)
    {
      assert (8 * i + k) / 8 == i && (8 * i + k) % 8 == k;
    }
    assert ByteOf(page, 8 * i) == ByteOf(page, 8 * i + 0);
  }

  lemma {:induction false} EightBytes(w: Word)
    ensures w == NthByte(w, 0) + 0x100 * NthByte(w, 1) + 0x1_0000 * NthByte(w, 2) + 0x100_0000 * NthByte(w, 3)
                 + 0x1_0000_0000 * NthByte(w, 4) + 0x100_0000_0000 * NthByte(w, 5)
                 + 0x1_0000_0000_0000 * NthByte(w, 6) + 0x100_0000_0000_0000 * NthByte(w, 7)
  {
    hide NthByte;
    var high := w / 0x1_0000_0000;
    FourBytes(w);
    FourBytes(high);
    ByteAbove(w, 0);
    ByteAbove(w, 1);
    ByteAbove(w, 2);
    ByteAbove(w, 3);
    assert high / 0x1_0000_0000 == 0;
  }

  lemma {:induction false} FourBytes(w: nat)
    ensures w == NthByte(w, 0) + 0x100 * NthByte(w, 1) + 0x1_0000 * NthByte(w, 2) + 0x100_0000 * NthByte(w, 3)
                 + 0x1_0000_0000 * (w / 0x1_0000_0000)
  {
    hide NthByte;
    ThreeShifts(w);
    ThreeQuotients(w);
  }

  lemma {:induction false} ThreeShifts(w: nat)
    ensures NthByte(w, 0) == w % 256 && NthByte(w, 1) == w / 256 % 256
    ensures NthByte(w, 2) == w / 256 / 256 % 256 && NthByte(w, 3) == w / 256 / 256 / 256 % 256
  {
    assert NthByte(w, 1) == NthByte(w / 256, 0);
    assert NthByte(w, 2) == NthByte(w / 256, 1) == NthByte(w / 256 / 256, 0);
    assert NthByte(w, 3) == NthByte(w / 256, 2) == NthByte(w / 256 / 256, 1) == NthByte(w / 256 / 256 / 256, 0);
  }

  lemma {:induction false} ThreeQuotients(w: nat)
    ensures w == w % 256 + 0x100 * (w / 256 % 256) + 0x1_0000 * (w / 256 / 256 % 256)
                 + 0x100_0000 * (w / 256 / 256 / 256 % 256) + 0x1_0000_0000 * (w / 0x1_0000_0000)
  {
    FourthQuotient(w);
    var a := w / 256;
    var b := a / 256;
    var c := b / 256;
    assert w == 256 * a + w % 256 && a == 256 * b + a % 256 && b == 256 * c + b % 256 && c == 256 * (c / 256) + c % 256;
  }

  lemma FourthQuotient(w: nat)
    ensures w / 256 / 256 / 256 / 256 == w / 0x1_0000_0000
  {
  }

  lemma {:induction false} ByteAbove(w: nat, k: nat)
    ensures NthByte(w, k + 4) == NthByte(w / 0x1_0000_0000, k)
  {
    assert NthByte(w, k + 4) == NthByte(w / 256, k + 3) == NthByte(w / 256 / 256, k + 2);
    assert NthByte(w / 256 / 256, k + 2) == NthByte(w / 256 / 256 / 256, k + 1);
    FourthQuotient(w);
  }

  // Registers.

  function Al(v: Vcpu): Byte8 {
    v.vmcb.rax % 256
  }

  function WithRax(v: Vcpu, x: int): Vcpu {
    v.(vmcb := v.vmcb.(rax := x))
  }

  function SetAl(v: Vcpu, b: Byte8): Vcpu {
    WithRax(v, v.vmcb.rax - Al(v) + b)
  }

  function Jump(v: Vcpu, rip: int): Vcpu {
    v.(vmcb := v.vmcb.(rip := rip))
  }

  /** `rip + n` in uint64_t. */
  function RipPlus(rip: int, n: nat): Word {
    (rip + n) % TWO_64
  }

  function Advance(v: Vcpu, n: nat): Vcpu {
    Jump(v, RipPlus(v.vmcb.rip, n))
  }

  /** A vcpu without its last exit, which the guest cannot see. */
  function Clean(v: Vcpu): Vcpu {
    v.(vmcb := v.vmcb.(exit := ExitInfo(0, 0, 0)))
  }

  // Instructions.

  datatype MemoryStore = MemoryStore(gpa: Word, index: Index, value: Word)

  type Index = i: nat | i < PTRS_PER_PAGE

  // Exit codes (include/cpu.h:430-515).
  const SVM_EXIT_DB: nat := 0x41
  const SVM_EXIT_HLT: nat := 0x78
  const SVM_EXIT_IOIO: nat := 0x7b
  const SVM_EXIT_NPF: nat := 0x400

  predicate Handled(code: nat) {
    code == SVM_EXIT_DB || code == SVM_EXIT_HLT || code == SVM_EXIT_IOIO || code == SVM_EXIT_NPF
  }

  /** The exits that the tool does not know. */
  type OtherCode = c: nat | !Handled(c)

  /**
   What an instruction of unspecified kind does, given the vcpu and all of memory: it runs,
   after touching these addresses, or is an access to the intercepted port, or raises another exit.
   */
  datatype Native =
    | Runs(touches: seq<Word>, cpu: Vcpu, stores: seq<MemoryStore>)
    | PortAccess(touches: seq<Word>, io: Io, next: Word)
    | Exits(code: OtherCode)

  type Isa = (Vcpu, map<nat, Page>) -> Native

  /** The tool's instruction pointer has 32 bits. */
  type MemorySize = m: nat | m <= 0x1_0000_0000

  /** The guest's instructions, and the constants that Makefile:19-23 passes to both sides. */
  datatype Board = Board(isa: Isa, memory: MemorySize, pioHawk: U16, mmioHawk: Word)

  datatype Instruction = Halt | DeviceLoad | DeviceStore | Other(native: Native)

  /** The address of the k-th byte at the instruction pointer. */
  function Linear(v: Vcpu, k: nat): Word {
    (v.vmcb.core.cs.base + v.vmcb.rip + k) % 0x1_0000_0000
  }

  /** No instruction changes the table root or the ASID of its vcpu. */
  function Bound(v: Vcpu, n: Native): Native {
    match n
    case Runs(touches, cpu, stores) =>
      Runs(touches, cpu.(vmcb := cpu.vmcb.(nestedCr3 := v.vmcb.nestedCr3, asid := v.vmcb.asid)), stores)
    case _ => n
  }

  /** Where `[edx]` is. */
  function DeviceAddress(v: Vcpu): Word {
    (v.vmcb.core.ds.base + v.gctx.rdx) % 0x1_0000_0000
  }

  function Decode(b: Board, v: Vcpu, view: map<nat, Page>): Instruction {
    var b0, b1, b2 := ByteAt(view, Linear(v, 0)), ByteAt(view, Linear(v, 1)), ByteAt(view, Linear(v, 2));
    if b0 == 0xf4 then Halt
    else if (b0 == 0xec || b0 == 0xee) && v.gctx.rdx % 0x1_0000 == b.pioHawk then
      Other(PortAccess([], Io(b0 == 0xec, false, false, Byte, 1, b.pioHawk), (v.vmcb.rip + 1) % TWO_64))
    else if b0 == 0x67 && b1 == 0x8a && b2 == 0x02 && DeviceAddress(v) == b.mmioHawk then DeviceLoad
    else if b0 == 0x67 && b1 == 0x88 && b2 == 0x02 && DeviceAddress(v) == b.mmioHawk then DeviceStore
    else Other(Bound(v, (b.isa)(Clean(v), view)))
  }

  function StoreAddresses(stores: seq<MemoryStore>): seq<Word> {
    seq(|stores|, i requires 0 <= i < |stores| => stores[i].gpa)
  }

  /** The ordinary memory that an instruction touches, in order; device accesses are not among it. */
  function Touches(i: Instruction, v: Vcpu): seq<Word> {
    match i
    case Halt => [Linear(v, 0)]
    case DeviceLoad => [Linear(v, 0), Linear(v, 1), Linear(v, 2)]
    case DeviceStore => [Linear(v, 0), Linear(v, 1), Linear(v, 2)]
    case Other(Runs(touches, _, stores)) => [Linear(v, 0)] + touches + StoreAddresses(stores)
    case Other(PortAccess(touches, _, _)) => [Linear(v, 0)] + touches
    case Other(Exits(_)) => [Linear(v, 0)]
  }

  function StoreIn(view: map<nat, Page>, s: MemoryStore): map<nat, Page> {
    view[Gpn(s.gpa) := PageIn(view, s.gpa)[s.index := s.value]]
  }

  function StoreEach(view: map<nat, Page>, stores: seq<MemoryStore>): map<nat, Page>
    decreases |stores|
  {
    if stores == [] then view else StoreEach(StoreIn(view, stores[0]), stores[1..])
  }

  /** A store changes one word of memory, and stores take effect one after the other. */
  lemma {:induction false} OneStore(view: map<nat, Page>, s: MemoryStore, g: Word)
    ensures PageIn(StoreEach(view, [s]), g)
            == if Gpn(g) == Gpn(s.gpa) then PageIn(view, g)[s.index := s.value] else PageIn(view, g)
  {
    assert [s][1..] == [];
    assert StoreEach(view, [s]) == StoreEach(StoreIn(view, s), []);
  }

  lemma {:induction false} StoresInOrder(view: map<nat, Page>, first: seq<MemoryStore>, rest: seq<MemoryStore>)
    ensures StoreEach(view, first + rest) == StoreEach(StoreEach(view, first), rest)
    decreases |first|
  {
    if first == [] {
      assert first + rest == rest;
    } else {
      assert (first + rest)[1..] == first[1..] + rest;
      StoresInOrder(StoreIn(view, first[0]), first[1..], rest);
    }
  }

  // The machine.

  datatype Ideal = Ideal(cpu: Vcpu, mem: map<nat, Page>, dev: Devices, halted: bool)

  function Perform(s: Ideal, i: Instruction): Ideal {
    match i
    case Halt => s.(halted := true)
    case DeviceLoad => s.(cpu := Advance(SetAl(s.cpu, MmioGet(s.dev)), 3))
    case DeviceStore => s.(cpu := Advance(s.cpu, 3), dev := s.dev.(mmio := Al(s.cpu)))
    case Other(PortAccess(_, io, next)) =>
      if io.isIn then s.(cpu := Jump(SetAl(s.cpu, PioGet(s.dev)), next))
      else s.(cpu := Jump(s.cpu, next), dev := s.dev.(pio := Al(s.cpu)))
    case Other(Runs(_, cpu, stores)) => s.(cpu := cpu, mem := StoreEach(s.mem, stores))
    case Other(Exits(_)) => s
  }

  function NextInstruction(b: Board, s: Ideal): Instruction {
    Decode(b, s.cpu, s.mem)
  }

  function IdealStep(b: Board, s: Ideal): Ideal {
    Perform(s, NextInstruction(b, s))
  }

  function StepMany(b: Board, s: Ideal, n: nat): Ideal
    decreases n
  {
    if n == 0 then s else StepMany(b, IdealStep(b, s), n - 1)
  }

  // What a step does, by the bytes at the instruction pointer.

  /** These bytes are in memory from the instruction pointer on. */
  predicate CodeAt(s: Ideal, code: seq<Byte8>) {
    forall k :: 0 <= k < |code| ==>
      ByteAt(s.mem, (s.cpu.vmcb.core.cs.base + s.cpu.vmcb.rip + k) % 0x1_0000_0000) == code[k]
  }

  /** OUT to the device's port: the device gets AL, and only the instruction pointer moves. */
  lemma {:induction false} OutStep(b: Board, s: Ideal)
    requires CodeAt(s, [0xee]) && s.cpu.gctx.rdx % 0x1_0000 == b.pioHawk
    ensures IdealStep(b, s) == s.(cpu := s.cpu.(vmcb := s.cpu.vmcb.(rip := (s.cpu.vmcb.rip + 1) % TWO_64)),
                                  dev := Devices(s.cpu.vmcb.rax % 256, s.dev.mmio))
  {
    assert [0xee][0] == ByteAt(s.mem, Linear(s.cpu, 0));
  }

  /** IN from it: AL becomes one more than was last written, and the rest of rax stays. */
  lemma {:induction false} InStep(b: Board, s: Ideal)
    requires CodeAt(s, [0xec]) && s.cpu.gctx.rdx % 0x1_0000 == b.pioHawk
    ensures var v, v' := s.cpu.vmcb, IdealStep(b, s).cpu.vmcb;
            && IdealStep(b, s) == s.(cpu := s.cpu.(vmcb := v.(rax := v'.rax, rip := (v.rip + 1) % TWO_64)))
            && v'.rax % 256 == (s.dev.pio + 1) % 256 && v'.rax / 256 == v.rax / 256
  {
    assert [0xec][0] == ByteAt(s.mem, Linear(s.cpu, 0));
    AlReplaced(s.cpu.vmcb.rax, PioGet(s.dev));
    AboveAl(s.cpu.vmcb.rax, PioGet(s.dev));
  }

  /** The move of AL to the device's address. */
  lemma {:induction false} StoreStep(b: Board, s: Ideal)
    requires CodeAt(s, [0x67, 0x88, 0x02]) && (s.cpu.vmcb.core.ds.base + s.cpu.gctx.rdx) % 0x1_0000_0000 == b.mmioHawk
    ensures IdealStep(b, s) == s.(cpu := s.cpu.(vmcb := s.cpu.vmcb.(rip := (s.cpu.vmcb.rip + 3) % TWO_64)),
                                  dev := Devices(s.dev.pio, s.cpu.vmcb.rax % 256))
    ensures NextInstruction(b, s) == DeviceStore
  {
    MoveBytes(s, 0x88);
  }

  /** The move of AL from it: AL becomes one less than was last written. */
  lemma {:induction false} LoadStep(b: Board, s: Ideal)
    requires CodeAt(s, [0x67, 0x8a, 0x02]) && (s.cpu.vmcb.core.ds.base + s.cpu.gctx.rdx) % 0x1_0000_0000 == b.mmioHawk
    ensures var v, v' := s.cpu.vmcb, IdealStep(b, s).cpu.vmcb;
            && IdealStep(b, s) == s.(cpu := s.cpu.(vmcb := v.(rax := v'.rax, rip := (v.rip + 3) % TWO_64)))
            && v'.rax % 256 == (s.dev.mmio - 1) % 256 && v'.rax / 256 == v.rax / 256
    ensures NextInstruction(b, s) == DeviceLoad
  {
    MoveBytes(s, 0x8a);
    AlReplaced(s.cpu.vmcb.rax, MmioGet(s.dev));
    AboveAl(s.cpu.vmcb.rax, MmioGet(s.dev));
  }

  lemma {:induction false} HaltStep(b: Board, s: Ideal)
    requires CodeAt(s, [0xf4])
    ensures IdealStep(b, s) == s.(halted := true)
  {
    assert [0xf4][0] == ByteAt(s.mem, Linear(s.cpu, 0));
  }

  lemma {:induction false} MoveBytes(s: Ideal, opcode: Byte8)
    requires CodeAt(s, [0x67, opcode, 0x02])
    ensures ByteAt(s.mem, Linear(s.cpu, 0)) == 0x67 && ByteAt(s.mem, Linear(s.cpu, 1)) == opcode
    ensures ByteAt(s.mem, Linear(s.cpu, 2)) == 0x02
  {
    var code: seq<Byte8> := [0x67, opcode, 0x02];
    assert code[0] == ByteAt(s.mem, Linear(s.cpu, 0)) && code[1] == ByteAt(s.mem, Linear(s.cpu, 1));
    assert code[2] == ByteAt(s.mem, Linear(s.cpu, 2));
  }

  lemma AboveAl(rax: int, b: Byte8)
    ensures (rax - rax % 256 + b) / 256 == rax / 256
  {
  }

  // The emulated rax.

  /**
   The tool's handlers overwrite all of rax where an input changes AL, so that the emulated
   guest may have another value x in rax.  This is the emulated vcpu beside the ideal one.
   */
  function Twin(s: Ideal, x: int): Vcpu {
    Clean(WithRax(s.cpu, x))
  }

  function TwinInstruction(b: Board, s: Ideal, x: int): Instruction {
    Decode(b, Twin(s, x), s.mem)
  }

  /** What an emulated instruction leaves in a rax that holds x. */
  function RaxLeft(i: Instruction, dev: Devices, x: int): int {
    match i
    case DeviceLoad => MmioGet(dev)
    case Other(PortAccess(_, io, _)) => if io.isIn then PioGet(dev) else x
    case Other(Runs(_, cpu, _)) => cpu.vmcb.rax
    case _ => x
  }

  /** The emulated rax after the next step. */
  function NextRax(b: Board, s: Ideal, x: int): int {
    RaxLeft(TwinInstruction(b, s, x), s.dev, x)
  }

  function RaxAfter(b: Board, s: Ideal, x: int, n: nat): int
    decreases n
  {
    if n == 0 then x else RaxAfter(b, IdealStep(b, s), NextRax(b, s, x), n - 1)
  }

  /** A vcpu without the bits of rax above AL, and without the last exit. */
  function Visible(v: Vcpu): Vcpu {
    Clean(WithRax(v, Al(v)))
  }

  /** The same instruction, with the same effect up to the bits of rax above AL. */
  predicate SameInstruction(i: Instruction, j: Instruction) {
    if i.Other? && i.native.Runs? && j.Other? && j.native.Runs? then
      && i.native.touches == j.native.touches && i.native.stores == j.native.stores
      && Visible(i.native.cpu) == Visible(j.native.cpu)
    else i == j
  }

  // What the emulator supports.

  predicate OnMmioPage(b: Board, gpa: Word) {
    Gpn(gpa) == Gpn(b.mmioHawk)
  }

  /** The tool can read k bytes at the instruction pointer through its mapping of guest memory. */
  predicate Readable(b: Board, v: Vcpu, k: nat) {
    0 <= v.vmcb.rip && v.vmcb.core.cs.base + v.vmcb.rip + k < b.memory
  }

  /** An access that the tool emulates: one byte, on the device's port, no string instruction. */
  predicate Plain(b: Board, io: Io) {
    io.size == Byte && !io.isString && !io.isRep && io.port == b.pioHawk
  }

  predicate Allowed(b: Board, s: Ideal, i: Instruction) {
    && (forall a :: a in Touches(i, s.cpu) ==> !OnMmioPage(b, a))
    && match i
       case Halt => true
       case DeviceLoad => s.cpu.gctx.rdx == b.mmioHawk && Readable(b, s.cpu, 2) && SmallBases(s.cpu)
       case DeviceStore => s.cpu.gctx.rdx == b.mmioHawk && Readable(b, s.cpu, 2) && SmallBases(s.cpu)
       case Other(PortAccess(_, io, _)) => Plain(b, io) && SmallBases(s.cpu)
       case Other(Runs(_, cpu, _)) => Readable(b, cpu, 0) && !OnMmioPage(b, Linear(cpu, 0))
       case Other(Exits(_)) => false
  }

  /** The next instruction is one that the tool handles, and it does not tell rax == x from the ideal rax. */
  predicate Supported(b: Board, s: Ideal, x: int) {
    SameInstruction(TwinInstruction(b, s, x), NextInstruction(b, s)) && Allowed(b, s, NextInstruction(b, s))
  }

  /** The pages of ordinary memory that the next step touches. */
  function StepPages(b: Board, s: Ideal, x: int): set<nat> {
    set a | a in Touches(TwinInstruction(b, s, x), Twin(s, x)) :: Gpn(a)
  }

  // When rax matters.

  /** Vcpus that differ in the last exit only decode alike. */
  lemma {:induction false} CleanDecode(b: Board, v: Vcpu, u: Vcpu, mem: map<nat, Page>)
    requires Clean(v) == Clean(u)
    ensures Decode(b, v, mem) == Decode(b, u, mem)
    ensures Touches(Decode(b, v, mem), v) == Touches(Decode(b, u, mem), u)
  {
    SameClean(v, u);
  }

  lemma {:induction false} SameClean(v: Vcpu, u: Vcpu)
    requires Clean(v) == Clean(u)
    ensures v.gctx == u.gctx && v.vmcb == u.vmcb.(exit := v.vmcb.exit)
    ensures forall k: nat :: Linear(v, k) == Linear(u, k)
  {
    assert v.gctx == Clean(v).gctx == u.gctx;
    assert v.vmcb.core == Clean(v).vmcb.core == u.vmcb.core;
    assert v.vmcb.extra == Clean(v).vmcb.extra == u.vmcb.extra;
    assert v.vmcb.rax == Clean(v).vmcb.rax == u.vmcb.rax;
    assert v.vmcb.rsp == Clean(v).vmcb.rsp == u.vmcb.rsp;
    assert v.vmcb.rip == Clean(v).vmcb.rip == u.vmcb.rip;
    assert v.vmcb.nestedCr3 == Clean(v).vmcb.nestedCr3 == u.vmcb.nestedCr3;
    assert v.vmcb.asid == Clean(v).vmcb.asid == u.vmcb.asid;
  }

  /** While rax is exact, a guest may look at all of it. */
  lemma {:induction false} ExactIsSupported(b: Board, s: Ideal)
    requires Allowed(b, s, NextInstruction(b, s))
    ensures Supported(b, s, s.cpu.vmcb.rax) && TwinInstruction(b, s, s.cpu.vmcb.rax) == NextInstruction(b, s)
  {
    CleanDecode(b, Twin(s, s.cpu.vmcb.rax), s.cpu, s.mem);
  }

  /** Any other instruction that runs, and can be fetched and logged off the MMIO page, is supported. */
  lemma {:induction false} NativeIsSupported(b: Board, s: Ideal)
    requires NextInstruction(b, s).Other? && NextInstruction(b, s).native.Runs?
    requires var n := NextInstruction(b, s).native;
             && !OnMmioPage(b, Linear(s.cpu, 0)) && (forall a :: a in n.touches ==> !OnMmioPage(b, a))
             && (forall st :: st in n.stores ==> !OnMmioPage(b, st.gpa))
             && 0 <= n.cpu.vmcb.rip && n.cpu.vmcb.core.cs.base + n.cpu.vmcb.rip < b.memory
             && !OnMmioPage(b, n.cpu.vmcb.core.cs.base + n.cpu.vmcb.rip)
    ensures Supported(b, s, s.cpu.vmcb.rax)
  {
    hide NextInstruction, OnMmioPage;
    NativeIsAllowed(b, s, NextInstruction(b, s));
    ExactIsSupported(b, s);
  }

  lemma {:induction false} NativeIsAllowed(b: Board, s: Ideal, i: Instruction)
    requires i.Other? && i.native.Runs? && !OnMmioPage(b, Linear(s.cpu, 0))
    requires forall a :: a in i.native.touches ==> !OnMmioPage(b, a)
    requires forall st :: st in i.native.stores ==> !OnMmioPage(b, st.gpa)
    requires Readable(b, i.native.cpu, 0)
    requires !OnMmioPage(b, i.native.cpu.vmcb.core.cs.base + i.native.cpu.vmcb.rip)
    ensures Allowed(b, s, i)
  {
    hide OnMmioPage;
    forall a | a in Touches(i, s.cpu)
      ensures !OnMmioPage(b, a)
    {
      if a in StoreAddresses(i.native.stores) {
        var k :| 0 <= k < |i.native.stores| && StoreAddresses(i.native.stores)[k] == a;
        assert i.native.stores[k] in i.native.stores;
      }
    }
    assert Linear(i.native.cpu, 0) == i.native.cpu.vmcb.core.cs.base + i.native.cpu.vmcb.rip;
  }

  /** The instruction depends on no more of rax than AL, and changes no more of what it leaves alone. */
  ghost predicate AlOnly(b: Board, s: Ideal) {
    forall y: int :: y % 256 == Al(s.cpu) ==> SameInstruction(TwinInstruction(b, s, y), NextInstruction(b, s))
  }

  /** Moreover the rax that it leaves does not depend on the bits above AL. */
  ghost predicate Restores(b: Board, s: Ideal) {
    AlOnly(b, s) && forall y: int :: y % 256 == Al(s.cpu) ==> NextRax(b, s, y) == IdealStep(b, s).cpu.vmcb.rax
  }

  /** Whether the emulated rax is sure to be exact after the next step. */
  ghost predicate ExactNext(b: Board, s: Ideal, exact: bool) {
    var i := NextInstruction(b, s);
    if Inputs(i) then 0 <= s.cpu.vmcb.rax < 256
    else exact || (i.Other? && i.native.Runs? && Restores(b, s))
  }

  /** An exact rax is lost only by an input over a larger one, and an exact one is found by overwriting it. */
  lemma {:induction false} ExactLostIff(b: Board, s: Ideal)
    ensures var i := NextInstruction(b, s);
            !ExactNext(b, s, true) <==>
              (i == DeviceLoad || (i.Other? && i.native.PortAccess? && i.native.io.isIn))
              && !(0 <= s.cpu.vmcb.rax < 256)
    ensures var i := NextInstruction(b, s);
            i.Other? && i.native.Runs? && Restores(b, s) ==> ExactNext(b, s, false)
  {
    hide NextInstruction, Restores;
  }

  lemma {:induction false} ExactStep(b: Board, s: Ideal, exact: bool, x: int)
    requires Allowed(b, s, NextInstruction(b, s)) && (exact || AlOnly(b, s))
    requires x % 256 == Al(s.cpu) && (exact ==> x == s.cpu.vmcb.rax)
    ensures Supported(b, s, x) && NextRax(b, s, x) % 256 == Al(IdealStep(b, s).cpu)
    ensures ExactNext(b, s, exact) ==> NextRax(b, s, x) == IdealStep(b, s).cpu.vmcb.rax
  {
    if exact {
      ExactIsSupported(b, s);
    }
    AlLeft(TwinInstruction(b, s, x), NextInstruction(b, s), s, x);
    ExactLeft(TwinInstruction(b, s, x), NextInstruction(b, s), s, x);
  }

  /** The emulated and the ideal AL stay equal. */
  lemma {:induction false} AlLeft(i: Instruction, j: Instruction, s: Ideal, x: int)
    requires SameInstruction(i, j) && x % 256 == Al(s.cpu)
    ensures RaxLeft(i, s.dev, x) % 256 == Al(Perform(s, j).cpu)
  {
    AlReplaced(s.cpu.vmcb.rax, MmioGet(s.dev));
    AlReplaced(s.cpu.vmcb.rax, PioGet(s.dev));
    if j.Other? && j.native.Runs? {
      assert Visible(i.native.cpu).vmcb.rax == Visible(j.native.cpu).vmcb.rax;
    }
  }

  /** The emulated and the ideal rax stay equal, but for inputs over a larger rax. */
  lemma {:induction false} ExactLeft(i: Instruction, j: Instruction, s: Ideal, x: int)
    requires SameInstruction(i, j)
    ensures i == j && x == s.cpu.vmcb.rax && (!Inputs(j) || 0 <= x < 256) ==>
              RaxLeft(i, s.dev, x) == Perform(s, j).cpu.vmcb.rax
    ensures Inputs(j) && 0 <= s.cpu.vmcb.rax < 256 ==> RaxLeft(i, s.dev, x) == Perform(s, j).cpu.vmcb.rax
  {
    AlReplaced(s.cpu.vmcb.rax, MmioGet(s.dev));
    AlReplaced(s.cpu.vmcb.rax, PioGet(s.dev));
  }

  predicate Inputs(i: Instruction) {
    i.DeviceLoad? || (i.Other? && i.native.PortAccess? && i.native.io.isIn)
  }

  lemma AlReplaced(rax: int, b: Byte8)
    ensures (rax - rax % 256 + b) % 256 == b
    ensures rax - rax % 256 + b == b <==> 0 <= rax < 256
  {
  }

  /** An emulated input leaves exactly what the ideal one does if and only if rax had no bits above AL. */
  lemma {:induction false} InputExactIff(v: Vcpu, b: Byte8)
    ensures WithRax(v, b) == SetAl(v, b) <==> 0 <= v.vmcb.rax < 256
  {
    AlReplaced(v.vmcb.rax, b);
    assert WithRax(v, b).vmcb.rax == b && SetAl(v, b).vmcb.rax == v.vmcb.rax - v.vmcb.rax % 256 + b;
  }

  /** For instance AH after an input of 2 into rax == 0x100. */
  lemma {:induction false} InputClearsAh(v: Vcpu)
    requires v.vmcb.rax == 0x100
    ensures WithRax(v, 2).vmcb.rax / 256 == 0 && SetAl(v, 2).vmcb.rax / 256 == 1
  {
  }

  // The emulated forms.

  /** The instruction at hand is one of those the tool emulates, by its bytes and registers. */
  predicate EmulatedForm(b: Board, s: Ideal) {
    var b0, b1, b2 := ByteAt(s.mem, Linear(s.cpu, 0)), ByteAt(s.mem, Linear(s.cpu, 1)), ByteAt(s.mem, Linear(s.cpu, 2));
    || b0 == 0xf4
    || ((b0 == 0xec || b0 == 0xee) && s.cpu.gctx.rdx % 0x1_0000 == b.pioHawk)
    || (b0 == 0x67 && (b1 == 0x88 || b1 == 0x8a) && b2 == 0x02 && s.cpu.gctx.rdx == b.mmioHawk < 0x1_0000_0000
        && s.cpu.vmcb.core.ds.base == 0)
  }

  /** Emulated instructions are supported wherever the tool can read them, whatever is in rax. */
  lemma {:induction false} EmulatedFormIsSupported(b: Board, s: Ideal, x: int)
    requires EmulatedForm(b, s) && SmallBases(s.cpu) && Readable(b, s.cpu, 2)
    requires !OnMmioPage(b, Linear(s.cpu, 0)) && !OnMmioPage(b, Linear(s.cpu, 1)) && !OnMmioPage(b, Linear(s.cpu, 2))
    ensures Supported(b, s, x)
  {
    EmulatedFormIsBlind(b, s, x);
    EmulatedFormIsAllowed(b, s, NextInstruction(b, s));
  }

  lemma {:induction false} EmulatedFormIsBlind(b: Board, s: Ideal, x: int)
    requires EmulatedForm(b, s)
    ensures TwinInstruction(b, s, x) == NextInstruction(b, s) && PlainForm(b, s, NextInstruction(b, s))
  {
    assert Linear(Twin(s, x), 0) == Linear(s.cpu, 0);
    assert Linear(Twin(s, x), 1) == Linear(s.cpu, 1);
    assert Linear(Twin(s, x), 2) == Linear(s.cpu, 2);
  }

  /** They ignore the bits above AL. */
  lemma {:induction false} EmulatedFormIsAlOnly(b: Board, s: Ideal)
    requires EmulatedForm(b, s)
    ensures AlOnly(b, s)
  {
    hide EmulatedForm, TwinInstruction, NextInstruction;
    forall y: int | y % 256 == Al(s.cpu)
      ensures SameInstruction(TwinInstruction(b, s, y), NextInstruction(b, s))
    {
      EmulatedFormIsBlind(b, s, y);
    }
  }

  predicate PlainForm(b: Board, s: Ideal, i: Instruction) {
    match i
    case Halt => true
    case DeviceLoad => s.cpu.gctx.rdx == b.mmioHawk
    case DeviceStore => s.cpu.gctx.rdx == b.mmioHawk
    case Other(PortAccess(touches, io, _)) => touches == [] && Plain(b, io)
    case _ => false
  }

  lemma {:induction false} EmulatedFormIsAllowed(b: Board, s: Ideal, i: Instruction)
    requires PlainForm(b, s, i) && SmallBases(s.cpu) && Readable(b, s.cpu, 2)
    requires !OnMmioPage(b, Linear(s.cpu, 0)) && !OnMmioPage(b, Linear(s.cpu, 1)) && !OnMmioPage(b, Linear(s.cpu, 2))
    ensures Allowed(b, s, i)
  {
  }
}
