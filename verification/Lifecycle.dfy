/**
 driver/vm.c: the life of one virtual machine and its vcpu under every interleaving of
 YAKVM_CREATE_VCPU calls, closes of the vm file and of vcpu files, and running vcpus.

 A thread inside `yakvm_vm_ioctl_create_vcpu` has a program counter; each transition is one
 statement that other threads can observe.  The kernel keeps a file open while an ioctl on
 it is in flight.
 */
module Lifecycle {
  import opened PageTable

  type Tid = nat
  type VcpuId = nat

  /** Where a thread is inside `yakvm_vm_ioctl_create_vcpu` (driver/vm.c:48-95), and its vcpu. */
  datatype Pc =
    | Building                 // before yakvm_create_vcpu returns
    | Built(v: VcpuId)         // before mutex_lock, line 62
    | Checking(v: VcpuId)      // holds the lock, before the test of vm->vcpu, line 63
    | Rejected(v: VcpuId)      // -EEXIST, before yakvm_destroy_vcpu, line 92
    | Holding(v: VcpuId)       // vm->vcpu set, before mutex_unlock, line 72
    | Installed(v: VcpuId)     // before yakvm_get_vm, line 73
    | Referenced(v: VcpuId)    // before anon_inode_getfd, line 76
    | NoFd(v: VcpuId)          // getfd failed, before mutex_lock, line 87
    | Clearing(v: VcpuId)      // holds the lock, before vm->vcpu = NULL, line 88
    | Cleared(v: VcpuId)       // before mutex_unlock, line 89
    | Unlinked(v: VcpuId)      // before yakvm_put_vm, line 90
    | Dropped(v: VcpuId)       // before yakvm_destroy_vcpu, line 92

  /** The thread holds a reference that it took with yakvm_get_vm. */
  predicate Counted(pc: Pc) {
    pc.Referenced? || pc.NoFd? || pc.Clearing? || pc.Cleared? || pc.Unlinked?
  }

  predicate Locks(pc: Pc) {
    pc.Checking? || pc.Holding? || pc.Clearing? || pc.Cleared?
  }

  /** The thread's vcpu is in vm->vcpu. */
  predicate Installs(pc: Pc) {
    pc.Holding? || pc.Installed? || pc.Referenced? || pc.NoFd? || pc.Clearing?
  }

  /**
   `struct vm` with the kernel's view of it: whether the vm file is open, the open vcpu files,
   the vcpus running in the guest, the threads, and the history of creations and destructions.
   */
  datatype Vm = Vm(
    refcount: int,
    vcpu: Option<VcpuId>,
    lock: Option<Tid>,
    file: bool,
    vcpuFiles: set<VcpuId>,
    running: set<VcpuId>,
    threads: map<Tid, Pc>,
    created: set<VcpuId>,
    handed: set<VcpuId>,       // vcpus that ever got a file
    destroyed: seq<VcpuId>,
    dying: bool,               // the count reached zero and yakvm_destroy_vm has not run
    freed: nat)                // runs of yakvm_destroy_vm

  /** After yakvm_create_vm and the hand-off of its reference to the vm file. */
  function Init(): Vm {
    Vm(1, None, None, true, {}, {}, map[], {}, {}, [], false, 0)
  }

  datatype Event =
    | Enter(t: Tid) | CreateFails(t: Tid) | Create(t: Tid, v: VcpuId)
    | LockToInstall(t: Tid) | FindBusy(t: Tid) | Install(t: Tid) | Unlock(t: Tid)
    | GetVm(t: Tid) | GetFd(t: Tid) | GetFdFails(t: Tid)
    | LockToClear(t: Tid) | Clear(t: Tid) | UnlockCleared(t: Tid) | PutVm(t: Tid) | DestroyVcpu(t: Tid)
    | CloseVm | CloseVcpu(v: VcpuId) | DestroyVm
    | EnterGuest(v: VcpuId) | LeaveGuest(v: VcpuId)

  predicate Enabled(s: Vm, e: Event) {
    match e
    case Enter(t) => s.file && t !in s.threads
    case CreateFails(t) => t in s.threads && s.threads[t].Building?
    case Create(t, v) => t in s.threads && s.threads[t].Building? && v !in s.created
    case LockToInstall(t) => t in s.threads && s.threads[t].Built? && s.lock == None
    case FindBusy(t) => t in s.threads && s.threads[t].Checking? && s.vcpu.Some?
    case Install(t) => t in s.threads && s.threads[t].Checking? && s.vcpu.None?
    case Unlock(t) => t in s.threads && s.threads[t].Holding?
    case GetVm(t) => t in s.threads && s.threads[t].Installed?
    case GetFd(t) => t in s.threads && s.threads[t].Referenced?
    case GetFdFails(t) => t in s.threads && s.threads[t].Referenced?
    case LockToClear(t) => t in s.threads && s.threads[t].NoFd? && s.lock == None
    case Clear(t) => t in s.threads && s.threads[t].Clearing?
    case UnlockCleared(t) => t in s.threads && s.threads[t].Cleared?
    case PutVm(t) => t in s.threads && s.threads[t].Unlinked?
    case DestroyVcpu(t) => t in s.threads && (s.threads[t].Rejected? || s.threads[t].Dropped?)
    case CloseVm => s.file && s.threads == map[]
    case CloseVcpu(v) => v in s.vcpuFiles && v !in s.running
    case DestroyVm => s.dying
    case EnterGuest(v) => v in s.vcpuFiles && v !in s.running
    case LeaveGuest(v) => v in s.running
  }

  function Goto(s: Vm, t: Tid, pc: Pc): Vm {
    s.(threads := s.threads[t := pc])
  }

  function Leave(s: Vm, t: Tid): Vm {
    s.(threads := s.threads - {t})
  }

  /** `yakvm_put_vm`: atomic_dec_and_test. */
  function Put(s: Vm): Vm {
    s.(refcount := s.refcount - 1, dying := s.dying || s.refcount - 1 == 0)
  }

  function Next(s: Vm, e: Event): Vm
    requires Enabled(s, e)
  {
    match e
    case Enter(t) => Goto(s, t, Building)
    case CreateFails(t) => Leave(s, t)
    case Create(t, v) => Goto(s, t, Built(v)).(created := s.created + {v})
    case LockToInstall(t) => Goto(s, t, Checking(s.threads[t].v)).(lock := Some(t))
    case FindBusy(t) => Goto(s, t, Rejected(s.threads[t].v)).(lock := None)
    case Install(t) => Goto(s, t, Holding(s.threads[t].v)).(vcpu := Some(s.threads[t].v))
    case Unlock(t) => Goto(s, t, Installed(s.threads[t].v)).(lock := None)
    case GetVm(t) => Goto(s, t, Referenced(s.threads[t].v)).(refcount := s.refcount + 1)
    case GetFd(t) =>
      Leave(s, t).(vcpuFiles := s.vcpuFiles + {s.threads[t].v}, handed := s.handed + {s.threads[t].v})
    case GetFdFails(t) => Goto(s, t, NoFd(s.threads[t].v))
    case LockToClear(t) => Goto(s, t, Clearing(s.threads[t].v)).(lock := Some(t))
    case Clear(t) => Goto(s, t, Cleared(s.threads[t].v)).(vcpu := None)
    case UnlockCleared(t) => Goto(s, t, Unlinked(s.threads[t].v)).(lock := None)
    case PutVm(t) => Put(Goto(s, t, Dropped(s.threads[t].v)))
    case DestroyVcpu(t) => Leave(s, t).(destroyed := s.destroyed + [s.threads[t].v])
    case CloseVm => Put(s.(file := false))
    case CloseVcpu(v) => Put(s.(vcpuFiles := s.vcpuFiles - {v}))
    case DestroyVm =>
      var destroyed := if s.vcpu.Some? then s.destroyed + [s.vcpu.value] else s.destroyed;
      s.(dying := false, freed := s.freed + 1, vcpu := None, destroyed := destroyed)
    case EnterGuest(v) => s.(running := s.running + {v})
    case LeaveGuest(v) => s.(running := s.running - {v})
  }

  // The invariant.

  function Holders(threads: map<Tid, Pc>): set<Tid> {
    set t | t in threads && Counted(threads[t])
  }

  /** The count is the live vm file, the live vcpu files and the threads between get and hand-off or put. */
  ghost predicate CountExact(s: Vm) {
    && s.refcount == (if s.file then 1 else 0) + |s.vcpuFiles| + |Holders(s.threads)|
    && (s.threads != map[] ==> s.file)
    && s.running <= s.vcpuFiles
  }

  /** The count is zero exactly from the last put on, and destruction happens at most once after it. */
  ghost predicate DeathExact(s: Vm) {
    && (s.refcount == 0 <==> s.dying || s.freed > 0)
    && s.freed <= 1
    && (s.freed > 0 ==> !s.dying && s.vcpu == None)
  }

  ghost predicate LockExact(s: Vm) {
    forall t :: s.lock == Some(t) <==> t in s.threads && Locks(s.threads[t])
  }

  /** What is in vm->vcpu was put there by the one thread that can take it out, or has been handed off. */
  ghost predicate InstallExact(s: Vm) {
    && (forall t :: t in s.threads && Installs(s.threads[t]) ==> s.vcpu == Some(s.threads[t].v))
    && (s.freed == 0 ==> forall v :: v in s.handed ==> s.vcpu == Some(v))
    && s.vcpuFiles <= s.handed <= s.created
  }

  predicate Owns(pc: Pc, v: VcpuId) {
    !pc.Building? && pc.v == v
  }

  /** No two threads own the same vcpu. */
  ghost predicate Distinct(threads: map<Tid, Pc>) {
    forall t, u, v :: t in threads && u in threads && Owns(threads[t], v) && Owns(threads[u], v) ==> t == u
  }

  /** A thread's vcpu exists, is not destroyed, and has no file. */
  ghost predicate ThreadsOwn(s: Vm) {
    forall t, v :: t in s.threads && Owns(s.threads[t], v) ==> v in s.created && v !in s.destroyed && v !in s.handed
  }

  /** A destroyed vcpu is gone for good. */
  ghost predicate GoneOnce(s: Vm) {
    && (forall v :: v in s.destroyed ==> v in s.created && s.vcpu != Some(v))
    && (forall i, j :: 0 <= i < j < |s.destroyed| ==> s.destroyed[i] != s.destroyed[j])
    && (s.vcpu.Some? ==> s.vcpu.value in s.created)
  }

  /** Nothing is lost: a live vcpu is a thread's or is installed, and what is installed has an owner. */
  ghost predicate NoneLost(s: Vm) {
    && (forall v :: v in s.created ==> v in s.destroyed || s.vcpu == Some(v) || OwnedByThread(s, v))
    && (s.vcpu.Some? ==> s.vcpu.value in s.handed || InstalledByThread(s, s.vcpu.value))
  }

  ghost predicate OwnedByThread(s: Vm, v: VcpuId) {
    exists t :: t in s.threads && Owns(s.threads[t], v)
  }

  ghost predicate InstalledByThread(s: Vm, v: VcpuId) {
    exists t :: t in s.threads && Installs(s.threads[t]) && Owns(s.threads[t], v)
  }

  ghost predicate Inv(s: Vm) {
    && CountExact(s) && DeathExact(s) && LockExact(s) && InstallExact(s)
    && Distinct(s.threads) && ThreadsOwn(s) && GoneOnce(s) && NoneLost(s)
  }

  lemma InitInv()
    ensures Inv(Init())
  {
    assert Holders(map[]) == {};
  }

  lemma {:induction false} HoldersGoto(threads: map<Tid, Pc>, t: Tid, pc: Pc)
    ensures Holders(threads[t := pc]) == if Counted(pc) then Holders(threads) + {t} else Holders(threads) - {t}
    ensures Holders(threads - {t}) == Holders(threads) - {t}
  {
  }

  /** The thread that takes an event, if it is a thread inside create_vcpu. */
  function Actor(e: Event): Option<Tid> {
    match e
    case Enter(t) => Some(t)
    case CreateFails(t) => Some(t)
    case Create(t, _) => Some(t)
    case LockToInstall(t) => Some(t)
    case FindBusy(t) => Some(t)
    case Install(t) => Some(t)
    case Unlock(t) => Some(t)
    case GetVm(t) => Some(t)
    case GetFd(t) => Some(t)
    case GetFdFails(t) => Some(t)
    case LockToClear(t) => Some(t)
    case Clear(t) => Some(t)
    case UnlockCleared(t) => Some(t)
    case PutVm(t) => Some(t)
    case DestroyVcpu(t) => Some(t)
    case _ => None
  }

  /** Thread t moves from a to b, keeping its vcpu or getting one that nobody has. */
  ghost predicate Moves(a: map<Tid, Pc>, b: map<Tid, Pc>, t: Tid, created: set<VcpuId>) {
    && (t in b ==> b == a[t := b[t]])
    && (t !in b ==> b == a - {t})
    && (forall v :: t in b && Owns(b[t], v) ==> (t in a && Owns(a[t], v)) || v !in created)
  }

  lemma {:induction false} ActorMoves(s: Vm, e: Event)
    requires Enabled(s, e)
    ensures match Actor(e)
            case None => Next(s, e).threads == s.threads
            case Some(t) => Moves(s.threads, Next(s, e).threads, t, s.created)
  {
  }

  lemma {:induction false} HoldersMove(a: map<Tid, Pc>, b: map<Tid, Pc>, t: Tid, created: set<VcpuId>)
    requires Moves(a, b, t, created)
    ensures |Holders(b)| == |Holders(a)| - (if t in a && Counted(a[t]) then 1 else 0)
            + (if t in b && Counted(b[t]) then 1 else 0)
  {
    HoldersGoto(a, t, if t in b then b[t] else Building);
    assert t in Holders(a) <==> t in a && Counted(a[t]);
  }

  lemma {:induction false} CountStep(s: Vm, e: Event)
    requires CountExact(s) && InstallExact(s) && ThreadsOwn(s) && Enabled(s, e)
    ensures CountExact(Next(s, e))
  {
    ActorMoves(s, e);
    match Actor(e)
    case None =>
    case Some(t) =>
      HoldersMove(s.threads, Next(s, e).threads, t, s.created);
  }

  lemma {:induction false} DeathStep(s: Vm, e: Event)
    requires CountExact(s) && DeathExact(s) && Enabled(s, e) && CountExact(Next(s, e))
    ensures DeathExact(Next(s, e))
  {
  }

  lemma {:induction false} LockStep(s: Vm, e: Event)
    requires LockExact(s) && Enabled(s, e)
    ensures LockExact(Next(s, e))
  {
  }

  /** When the VM is destroyed nobody is inside create_vcpu and no file is open. */
  lemma {:induction false} DyingAlone(s: Vm)
    requires CountExact(s) && DeathExact(s) && (s.dying || s.freed > 0)
    ensures !s.file && s.vcpuFiles == {} && s.running == {} && s.threads == map[]
  {
  }

  lemma {:induction false} InstallStep(s: Vm, e: Event)
    requires InstallExact(s) && Distinct(s.threads) && ThreadsOwn(s) && CountExact(s) && DeathExact(s) && Enabled(s, e)
    ensures InstallExact(Next(s, e))
  {
    ActorMoves(s, e);
    if e.DestroyVm? {
      DyingAlone(s);
    } else if e.Clear? {
      ClearsItsOwn(s, e.t);
    }
    forall u | u in Next(s, e).threads && Installs(Next(s, e).threads[u])
      ensures Next(s, e).vcpu == Some(Next(s, e).threads[u].v)
    {
      InstallStepAt(s, e, u);
    }
  }

  lemma {:induction false} InstallStepAt(s: Vm, e: Event, u: Tid)
    requires InstallExact(s) && Distinct(s.threads) && ThreadsOwn(s) && CountExact(s) && DeathExact(s) && Enabled(s, e)
    requires u in Next(s, e).threads && Installs(Next(s, e).threads[u])
    ensures Next(s, e).vcpu == Some(Next(s, e).threads[u].v)
  {
    if e.DestroyVm? {
      DyingAlone(s);
    } else if e.Clear? {
      ClearsItsOwn(s, e.t);
    }
  }

  /** A thread that clears vm->vcpu clears the vcpu it installed, and nobody else relies on it. */
  lemma {:induction false} ClearsItsOwn(s: Vm, t: Tid)
    requires InstallExact(s) && Distinct(s.threads) && ThreadsOwn(s) && t in s.threads && s.threads[t].Clearing?
    requires CountExact(s) && DeathExact(s)
    ensures s.vcpu == Some(s.threads[t].v)
    ensures forall u :: u in s.threads && Installs(s.threads[u]) ==> u == t
    ensures s.handed == {} && s.freed == 0
  {
    var v := s.threads[t].v;
    assert Owns(s.threads[t], v);
    if s.freed > 0 {
      DyingAlone(s);
    }
    forall u | u in s.threads && Installs(s.threads[u])
      ensures u == t
    {
      assert Owns(s.threads[u], v);
    }
  }

  lemma {:induction false} DistinctMove(a: map<Tid, Pc>, b: map<Tid, Pc>, t: Tid, created: set<VcpuId>)
    requires Distinct(a) && Moves(a, b, t, created)
    requires forall u, v :: u in a && Owns(a[u], v) ==> v in created
    ensures Distinct(b)
  {
  }

  lemma {:induction false} DistinctStep(s: Vm, e: Event)
    requires Distinct(s.threads) && ThreadsOwn(s) && Enabled(s, e)
    ensures Distinct(Next(s, e).threads)
  {
    ActorMoves(s, e);
    match Actor(e)
    case None =>
    case Some(t) =>
      DistinctMove(s.threads, Next(s, e).threads, t, s.created);
  }

  lemma {:induction false} OwnStep(s: Vm, e: Event)
    requires Inv(s) && Enabled(s, e)
    ensures ThreadsOwn(Next(s, e))
  {
    var s' := Next(s, e);
    forall u, v | u in s'.threads && Owns(s'.threads[u], v)
      ensures v in s'.created && v !in s'.destroyed && v !in s'.handed
    {
      OwnStepAt(s, e, u, v);
    }
  }

  lemma {:induction false} OwnStepAt(s: Vm, e: Event, u: Tid, v: VcpuId)
    requires Inv(s) && Enabled(s, e) && u in Next(s, e).threads && Owns(Next(s, e).threads[u], v)
    ensures v in Next(s, e).created && v !in Next(s, e).destroyed && v !in Next(s, e).handed
  {
    ActorMoves(s, e);
    if e.DestroyVm? {
      DyingAlone(s);
    } else if u in s.threads && Owns(s.threads[u], v) {
      if e.GetFd? || e.DestroyVcpu? {
        assert Owns(s.threads[e.t], s.threads[e.t].v);
      }
    }
  }

  lemma {:induction false} GoneStep(s: Vm, e: Event)
    requires Inv(s) && Enabled(s, e)
    ensures GoneOnce(Next(s, e))
  {
    var s' := Next(s, e);
    if e.DestroyVcpu? {
      var v := s.threads[e.t].v;
      assert Owns(s.threads[e.t], v);
      NotInstalledHere(s, e.t);
    } else if e.Install? {
      assert Owns(s.threads[e.t], s.threads[e.t].v);
    }
  }

  /** A thread about to destroy its vcpu does so to one that is not in vm->vcpu. */
  lemma {:induction false} NotInstalledHere(s: Vm, t: Tid)
    requires Inv(s) && t in s.threads && (s.threads[t].Rejected? || s.threads[t].Dropped?)
    ensures s.vcpu != Some(s.threads[t].v)
  {
    var v := s.threads[t].v;
    assert Owns(s.threads[t], v);
    assert forall u :: u in s.threads && Owns(s.threads[u], v) ==> u == t;
  }

  lemma {:induction false} LossStep(s: Vm, e: Event)
    requires Inv(s) && Enabled(s, e)
    ensures NoneLost(Next(s, e))
  {
    var s' := Next(s, e);
    forall v | v in s'.created
      ensures v in s'.destroyed || s'.vcpu == Some(v) || OwnedByThread(s', v)
    {
      LiveStays(s, e, v);
    }
    if s'.vcpu.Some? {
      InstalledStays(s, e);
    }
  }

  lemma {:induction false} LiveStays(s: Vm, e: Event, v: VcpuId)
    requires NoneLost(s) && InstallExact(s) && Enabled(s, e) && v in Next(s, e).created
    ensures v in Next(s, e).destroyed || Next(s, e).vcpu == Some(v) || OwnedByThread(Next(s, e), v)
  {
    if v !in s.created {
      assert Owns(Next(s, e).threads[e.t], v);
    } else if v in s.destroyed || s.vcpu == Some(v) {
      UnownedStays(s, e, v);
    } else {
      var t :| t in s.threads && Owns(s.threads[t], v);
      OwnedStays(s, e, t, v);
    }
  }

  lemma {:induction false} UnownedStays(s: Vm, e: Event, v: VcpuId)
    requires InstallExact(s) && Enabled(s, e) && (v in s.destroyed || s.vcpu == Some(v))
    ensures v in Next(s, e).destroyed || Next(s, e).vcpu == Some(v) || OwnedByThread(Next(s, e), v)
  {
    if e.Clear? && s.vcpu == Some(v) {
      assert Installs(s.threads[e.t]);
      assert Owns(Next(s, e).threads[e.t], v);
    }
  }

  /** A vcpu leaves its thread only into vm->vcpu or into destruction. */
  lemma {:induction false} OwnedStays(s: Vm, e: Event, t: Tid, v: VcpuId)
    requires InstallExact(s) && Enabled(s, e) && t in s.threads && Owns(s.threads[t], v)
    ensures v in Next(s, e).destroyed || Next(s, e).vcpu == Some(v) || OwnedByThread(Next(s, e), v)
  {
    ActorMoves(s, e);
    if Actor(e) != Some(t) {
      assert Owns(Next(s, e).threads[t], v);
    } else if e.GetFd? {
      assert Installs(s.threads[t]);
    } else if t in Next(s, e).threads {
      assert Owns(Next(s, e).threads[t], v);
    }
  }

  lemma {:induction false} InstalledStays(s: Vm, e: Event)
    requires NoneLost(s) && InstallExact(s) && Enabled(s, e) && Next(s, e).vcpu.Some?
    ensures var s' := Next(s, e); s'.vcpu.value in s'.handed || InstalledByThread(s', s'.vcpu.value)
  {
    var v := Next(s, e).vcpu.value;
    if e.Install? {
      assert Installs(Next(s, e).threads[e.t]) && Owns(Next(s, e).threads[e.t], v);
    } else if v !in s.handed {
      var t :| t in s.threads && Installs(s.threads[t]) && Owns(s.threads[t], v);
      InstallerStays(s, e, t, v);
    }
  }

  lemma {:induction false} InstallerStays(s: Vm, e: Event, t: Tid, v: VcpuId)
    requires Enabled(s, e) && Next(s, e).vcpu == Some(v) && t in s.threads && Installs(s.threads[t])
             && Owns(s.threads[t], v)
    ensures v in Next(s, e).handed || InstalledByThread(Next(s, e), v)
  {
    ActorMoves(s, e);
    if t in Next(s, e).threads {
      assert Installs(Next(s, e).threads[t]) && Owns(Next(s, e).threads[t], v);
    }
  }

  lemma {:induction false} StepKeepsInv(s: Vm, e: Event)
    requires Inv(s) && Enabled(s, e)
    ensures Inv(Next(s, e))
  {
    CountStep(s, e);
    DeathStep(s, e);
    LockStep(s, e);
    InstallStep(s, e);
    DistinctStep(s, e);
    OwnStep(s, e);
    GoneStep(s, e);
    LossStep(s, e);
  }

  // Whole runs.

  /** The state after a schedule, which takes enabled events only. */
  function Exec(s: Vm, schedule: seq<Event>): Option<Vm>
    decreases |schedule|
  {
    if schedule == [] then Some(s)
    else if Enabled(s, schedule[0]) then Exec(Next(s, schedule[0]), schedule[1..])
    else None
  }

  lemma {:induction false} RunKeepsInv(s: Vm, schedule: seq<Event>)
    requires Inv(s) && Exec(s, schedule).Some?
    ensures Inv(Exec(s, schedule).value)
    decreases |schedule|
  {
    if schedule != [] {
      StepKeepsInv(s, schedule[0]);
      RunKeepsInv(Next(s, schedule[0]), schedule[1..]);
    }
  }

  ghost predicate AllGone(s: Vm) {
    !s.file && s.vcpuFiles == {} && s.running == {} && s.threads == map[]
  }

  /**
   In every interleaving the count is exact: the VM is being destroyed or has been destroyed,
   once, if and only if every file, thread and running vcpu is gone.
   */
  lemma {:induction false} CountIsExact(schedule: seq<Event>)
    requires Exec(Init(), schedule).Some?
    ensures var s := Exec(Init(), schedule).value;
            && s.refcount == (if s.file then 1 else 0) + |s.vcpuFiles| + |Holders(s.threads)|
            && s.freed <= 1 && (s.freed > 0 ==> !s.dying)
            && (s.dying || s.freed == 1 <==> AllGone(s))
  {
    InitInv();
    RunKeepsInv(Init(), schedule);
    var s := Exec(Init(), schedule).value;
    if s.dying || s.freed > 0 {
      DyingAlone(s);
    }
  }

  /** In every interleaving at most one vcpu ever gets a file, and it stays installed until the VM is destroyed. */
  lemma {:induction false} OneVcpuPerVm(schedule: seq<Event>, v: VcpuId, w: VcpuId)
    requires Exec(Init(), schedule).Some?
    requires v in Exec(Init(), schedule).value.handed && w in Exec(Init(), schedule).value.handed
    requires Exec(Init(), schedule).value.freed == 0
    ensures v == w && Exec(Init(), schedule).value.vcpu == Some(v)
  {
    InitInv();
    RunKeepsInv(Init(), schedule);
  }

  /** Once the VM is destroyed, every vcpu ever created has been destroyed exactly once. */
  lemma {:induction false} EveryVcpuDestroyedOnce(schedule: seq<Event>)
    requires Exec(Init(), schedule).Some? && Exec(Init(), schedule).value.freed > 0
    ensures var s := Exec(Init(), schedule).value; multiset(s.destroyed) == multiset(s.created)
  {
    InitInv();
    RunKeepsInv(Init(), schedule);
    var s := Exec(Init(), schedule).value;
    DyingAlone(s);
    forall v
      ensures multiset(s.destroyed)[v] == multiset(s.created)[v]
    {
      assert v in s.created <==> v in s.destroyed;
      OccursOnce(s.destroyed, v);
    }
  }

  lemma {:induction false} OccursOnce(xs: seq<VcpuId>, v: VcpuId)
    requires forall i, j :: 0 <= i < j < |xs| ==> xs[i] != xs[j]
    ensures multiset(xs)[v] == if v in xs then 1 else 0
  {
    if xs != [] {
      assert xs == [xs[0]] + xs[1..];
      OccursOnce(xs[1..], v);
    }
  }

  /** While a vcpu runs, its VM has not been destroyed and neither has it. */
  lemma {:induction false} RunningIsAlive(schedule: seq<Event>, v: VcpuId)
    requires Exec(Init(), schedule).Some? && v in Exec(Init(), schedule).value.vcpuFiles
    ensures var s := Exec(Init(), schedule).value;
            s.freed == 0 && !s.dying && s.vcpu == Some(v) && v !in s.destroyed
  {
    InitInv();
    RunKeepsInv(Init(), schedule);
    var s := Exec(Init(), schedule).value;
    if s.dying || s.freed > 0 {
      DyingAlone(s);
    }
  }
}
