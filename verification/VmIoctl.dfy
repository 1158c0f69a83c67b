/**
 `yakvm_vm_ioctl_create_vcpu` (driver/vm.c:48-95) as one thread executes it, statement by
 statement, with every other thread free to run between any two statements.
 */
module VmIoctl {
  import opened Words
  import opened PageTable
  import opened Lifecycle

  const EEXIST: int := 17

  /** What the ioctl returns to userspace: a descriptor for this vcpu, or an int from an error path. */
  datatype Result = Fd(v: VcpuId) | Code(r: int)

  /** `r = PTR_ERR(p)` where r is an int: the low half of the pointer, in two's complement. */
  function PtrErr(p: Word): int {
    var low := p % 0x1_0000_0000;
    if low < 0x8000_0000 then low else low - 0x1_0000_0000
  }

  /**
   When no vcpu can be made, the code returns the pointer to the VM as its error (driver/vm.c:56).
   Userspace sees a failure if and only if bit 31 of that address is set.
   */
  lemma ReportsFailureIff(vm: Word)
    ensures PtrErr(vm) < 0 <==> And(vm, 0x8000_0000) != 0
  {
    TopBit(vm);
    Pow2Of31();
    AndBit(vm, 31);
    ShiftIsDiv(vm, 31);
  }

  lemma TopBit(vm: Word)
    ensures vm % 0x1_0000_0000 >= 0x8000_0000 <==> vm / 0x8000_0000 % 2 == 1
  {
    SplitDivMod(vm, 0x8000_0000, 2);
  }

  lemma Pow2Of31()
    ensures Pow2(31) == 0x8000_0000
  {
    Pow2Values();
    Pow2Add(30, 1);
  }

  /** A kernel address on which a failed creation looks like descriptor 0x01234000. */
  lemma FailureLooksLikeFd()
    ensures PtrErr(0xffff_8880_0123_4000) == 0x0123_4000
  {
  }

  /** State b follows from state a by events of threads other than t, and of files. */
  ghost predicate ByOthers(a: Vm, b: Vm, t: Tid) {
    exists schedule :: Exec(a, schedule) == Some(b) && forall e :: e in schedule ==> Actor(e) != Some(t)
  }

  /** Other threads do not move this one. */
  lemma {:induction false} OthersKeepPc(a: Vm, schedule: seq<Event>, t: Tid)
    requires Exec(a, schedule).Some? && forall e :: e in schedule ==> Actor(e) != Some(t)
    ensures var b := Exec(a, schedule).value;
            (t in b.threads <==> t in a.threads) && (t in a.threads ==> b.threads[t] == a.threads[t])
    decreases |schedule|
  {
    if schedule != [] {
      ActorMoves(a, schedule[0]);
      OthersKeepPc(Next(a, schedule[0]), schedule[1..], t);
    }
  }

  lemma {:induction false} ExecSnoc(a: Vm, schedule: seq<Event>, e: Event)
    requires Exec(a, schedule).Some? && Enabled(Exec(a, schedule).value, e)
    ensures Exec(a, schedule + [e]) == Some(Next(Exec(a, schedule).value, e))
    decreases |schedule|
  {
    if schedule == [] {
      assert Exec(Next(a, e), []) == Some(Next(a, e));
      assert [e][1..] == [];
    } else {
      ExecSnoc(Next(a, schedule[0]), schedule[1..], e);
      assert (schedule + [e])[1..] == schedule[1..] + [e];
    }
  }

  lemma {:induction false} OneEvent(a: Vm, e: Event)
    requires Enabled(a, e)
    ensures Exec(a, [e]) == Some(Next(a, e))
  {
    assert [e][1..] == [];
    assert Exec(Next(a, e), []) == Some(Next(a, e));
  }

  /** The next statement of thread u is a mutex_unlock. */
  predicate AtUnlock(s: Vm, u: Tid)
    requires u in s.threads
  {
    (s.threads[u].Checking? && s.vcpu.Some?) || s.threads[u].Holding? || s.threads[u].Cleared?
  }

  // What one thread did.

  lemma {:induction false} ExecAppend(a: Vm, x: seq<Event>, y: seq<Event>)
    requires Exec(a, x).Some?
    ensures Exec(a, x + y) == Exec(Exec(a, x).value, y)
    decreases |x|
  {
    if x == [] {
      assert x + y == y;
    } else {
      assert (x + y)[1..] == x[1..] + y;
      ExecAppend(Next(a, x[0]), x[1..], y);
    }
  }

  lemma {:induction false} OthersTwice(a: Vm, b: Vm, c: Vm, t: Tid)
    requires ByOthers(a, b, t) && ByOthers(b, c, t)
    ensures ByOthers(a, c, t)
  {
    var x :| Exec(a, x) == Some(b) && forall e :: e in x ==> Actor(e) != Some(t);
    var y :| Exec(b, y) == Some(c) && forall e :: e in y ==> Actor(e) != Some(t);
    ExecAppend(a, x, y);
    assert Exec(a, x + y) == Some(c);
  }

  /** State b follows from state a by these events of thread t, in order, and anything of other threads between them. */
  ghost predicate Interleaved(a: Vm, own: seq<Event>, b: Vm, t: Tid)
    decreases |own|
  {
    if own == [] then ByOthers(a, b, t) else exists m :: LastOwn(a, own, m, b, t)
  }

  ghost predicate LastOwn(a: Vm, own: seq<Event>, m: Vm, b: Vm, t: Tid)
    requires own != []
    decreases |own|, 0
  {
    var e := own[|own| - 1];
    Interleaved(a, own[..|own| - 1], m, t) && Enabled(m, e) && Actor(e) == Some(t) && ByOthers(Next(m, e), b, t)
  }

  /** Whether an account of what thread t did between two states is true. */
  ghost function Account(a: Vm, own: seq<Event>, b: Vm, t: Tid): Verdict {
    if Interleaved(a, own, b, t) then Holds else Fails
  }

  lemma {:induction false} NothingYet(a: Vm, t: Tid)
    ensures Account(a, [], a, t) == Holds
  {
    assert Exec(a, []) == Some(a);
  }

  lemma {:induction false} Waited(a: Vm, own: seq<Event>, b: Vm, c: Vm, t: Tid)
    requires Account(a, own, b, t) == Holds && ByOthers(b, c, t)
    ensures Account(a, own, c, t) == Holds
  {
    if own == [] {
      OthersTwice(a, b, c, t);
    } else {
      assert Interleaved(a, own, b, t);
      var m :| LastOwn(a, own, m, b, t);
      OthersTwice(Next(m, own[|own| - 1]), b, c, t);
      assert LastOwn(a, own, m, c, t);
    }
  }

  lemma {:induction false} Acted(a: Vm, own: seq<Event>, b: Vm, e: Event, t: Tid)
    requires Account(a, own, b, t) == Holds && Enabled(b, e) && Actor(e) == Some(t)
    ensures Account(a, own + [e], Next(b, e), t) == Holds
  {
    assert (own + [e])[..|own|] == own;
    assert Exec(Next(b, e), []) == Some(Next(b, e));
    assert LastOwn(a, own + [e], b, Next(b, e), t);
  }

  lemma {:induction false} OtherActed(a: Vm, own: seq<Event>, b: Vm, e: Event, t: Tid)
    requires Account(a, own, b, t) == Holds && Enabled(b, e) && Actor(e) != Some(t)
    ensures Account(a, own, Next(b, e), t) == Holds
  {
    OneEvent(b, e);
    Waited(a, own, b, Next(b, e), t);
  }

  /** Some vcpu has not been created. */
  lemma {:induction false} Unused(created: set<VcpuId>, n: nat) returns (v: VcpuId)
    requires |created| < n
    ensures v !in created && v < n
    decreases n
  {
    if n - 1 !in created {
      v := n - 1;
    } else {
      v := Unused(created - {n - 1}, n - 1);
    }
  }

  lemma TwoMore(x: seq<Event>, a: Event, b: Event)
    ensures x + [a] + [b] == x + [a, b]
  {
  }

  lemma Regroup(x: seq<Event>, y: seq<Event>, z: seq<Event>)
    ensures x + y + z == x + (y + z)
  {
  }

  /** The four ways through the ioctl. */
  datatype Way = NotMade | Busy(v: VcpuId) | NoDescriptor(v: VcpuId) | HandedOff(v: VcpuId)

  function Created(t: Tid, v: VcpuId): seq<Event> {
    [Enter(t), Create(t, v)]
  }

  function Locked(t: Tid): seq<Event> {
    [LockToInstall(t)]
  }

  function InstalledBy(t: Tid): seq<Event> {
    [Install(t)] + [Unlock(t), GetVm(t)]
  }

  /** The statements of thread t on this way (driver/vm.c:54-94), as other threads see them. */
  function Statements(t: Tid, way: Way): seq<Event> {
    match way
    case NotMade => [Enter(t), CreateFails(t)]
    case Busy(v) => Created(t, v) + Locked(t) + [FindBusy(t)] + [DestroyVcpu(t)]
    case NoDescriptor(v) =>
      Created(t, v) + Locked(t) + InstalledBy(t) + [GetFdFails(t)]
      + [LockToClear(t), Clear(t)] + [UnlockCleared(t), PutVm(t)] + [DestroyVcpu(t)]
    case HandedOff(v) => Created(t, v) + Locked(t) + InstalledBy(t) + [GetFd(t)]
  }

  /** What each way returns. */
  function Returned(way: Way, vmAddress: Word, failedFd: int): Result {
    match way
    case NotMade => Code(PtrErr(vmAddress))
    case Busy(_) => Code(-EEXIST)
    case NoDescriptor(_) => Code(failedFd)
    case HandedOff(v) => Fd(v)
  }

  class VmObject {
    var s: Vm
    ghost var origin: Vm
    ghost var own: seq<Event>

    /** Thread t has executed the statements `own` since state `origin`. */
    ghost predicate Valid(t: Tid)
      reads this
    {
      Inv(s) && Account(origin, own, s, t) == Holds
    }

    constructor ()
      ensures s == Init() && Inv(s)
    {
      s, origin, own := Init(), Init(), [];
      new;
      InitInv();
    }

    /** One statement of thread t. */
    method Do(e: Event, ghost t: Tid)
      requires Valid(t) && Enabled(s, e) && Actor(e) == Some(t)
      modifies this
      ensures Valid(t) && s == Next(old(s), e) && origin == old(origin) && own == old(own) + [e]
    {
      StepKeepsInv(s, e);
      Acted(origin, own, s, e, t);
      s, own := Next(s, e), own + [e];
    }

    /** One statement of another thread. */
    method DoOther(e: Event, ghost t: Tid)
      requires Valid(t) && Enabled(s, e) && Actor(e) != Some(t)
      modifies this`s
      ensures Valid(t) && s == Next(old(s), e)
    {
      StepKeepsInv(s, e);
      OtherActed(origin, own, s, e, t);
      s := Next(s, e);
    }

    /** Preemption of thread t: what others do meanwhile is bounded only by the contract. */
    method Preempt(ghost t: Tid)
      requires Valid(t)
      modifies this`s
      ensures Valid(t) && ByOthers(old(s), s, t)
      ensures t in s.threads <==> t in old(s.threads)
      ensures t in s.threads ==> s.threads[t] == old(s.threads[t])
    {
      assert Exec(s, []) == Some(s);
    }

    /**
     Waiting in mutex_lock, after others have run up to state `seen`: the holder, whoever it
     is, reaches its unlock in at most two statements of its own.
     */
    method AwaitUnlock(t: Tid) returns (ghost seen: Vm, ghost tail: seq<Event>)
      requires Valid(t) && t in s.threads && (s.threads[t].Built? || s.threads[t].NoFd?)
      modifies this`s
      ensures Valid(t) && s.lock == None && t in s.threads && s.threads[t] == old(s.threads[t])
      ensures ByOthers(old(s), seen, t) && Exec(seen, tail) == Some(s) && |tail| <= 2
      ensures forall e :: e in tail ==> Actor(e) == seen.lock != Some(t)
    {
      Preempt(t);
      seen, tail := s, [];
      if s.lock.Some? {
        tail := HolderReleases(s.lock.value, t);
      }
    }

    method HolderReleases(u: Tid, ghost t: Tid) returns (ghost tail: seq<Event>)
      requires Valid(t) && u != t && s.lock == Some(u)
      modifies this`s
      ensures Valid(t) && s.lock == None
      ensures t in s.threads <==> t in old(s.threads)
      ensures t in s.threads ==> s.threads[t] == old(s.threads[t])
      ensures Exec(old(s), tail) == Some(s) && |tail| <= 2 && forall e :: e in tail ==> Actor(e) == Some(u)
    {
      assert Locks(s.threads[u]);
      ghost var a := s;
      tail := ReachUnlock(u, t);
      ghost var e := UnlockBy(u, t);
      ExecSnoc(a, tail, e);
      tail := tail + [e];
    }

    /** The holder's unlock. */
    method UnlockBy(u: Tid, ghost t: Tid) returns (ghost e: Event)
      requires Valid(t) && u != t && u in s.threads && AtUnlock(s, u)
      modifies this`s
      ensures Valid(t) && s.lock == None
      ensures t in s.threads <==> t in old(s.threads)
      ensures t in s.threads ==> s.threads[t] == old(s.threads[t])
      ensures Actor(e) == Some(u) && Enabled(old(s), e) && s == Next(old(s), e)
    {
      var unlock := if s.threads[u].Checking? then FindBusy(u)
                    else if s.threads[u].Holding? then Unlock(u) else UnlockCleared(u);
      e := unlock;
      DoOther(unlock, t);
    }

    /** The holder's last statement before its unlock, if it has one. */
    method ReachUnlock(u: Tid, ghost t: Tid) returns (ghost tail: seq<Event>)
      requires Valid(t) && u != t && u in s.threads && Locks(s.threads[u])
      modifies this`s
      ensures Valid(t) && u in s.threads && AtUnlock(s, u)
      ensures t in s.threads <==> t in old(s.threads)
      ensures t in s.threads ==> s.threads[t] == old(s.threads[t])
      ensures Exec(old(s), tail) == Some(s) && |tail| <= 1 && forall e :: e in tail ==> Actor(e) == Some(u)
    {
      tail := [];
      if s.threads[u].Checking? && s.vcpu.None? {
        OneEvent(s, Install(u));
        tail := [Install(u)];
        DoOther(Install(u), t);
      } else if s.threads[u].Clearing? {
        OneEvent(s, Clear(u));
        tail := [Clear(u)];
        DoOther(Clear(u), t);
      }
    }

    /** `yakvm_create_vcpu` as this protocol sees it: a vcpu nobody has had, if there is memory. */
    method AllocateVcpu(t: Tid, memory: bool) returns (v: Option<VcpuId>)
      requires Valid(t) && t in s.threads && s.threads[t] == Building
      modifies this
      ensures Valid(t) && v.Some? == memory
      ensures v.None? ==> t !in s.threads && origin == old(origin) && own == old(own) + [CreateFails(t)]
      ensures v.Some? ==> t in s.threads && s.threads[t] == Built(v.value)
      ensures v.Some? ==> origin == old(origin) && own == old(own) + [Create(t, v.value)]
    {
      if memory {
        ghost var free := Unused(s.created, |s.created| + 1);
        var id: VcpuId :| id !in s.created && id <= |s.created|;
        Do(Create(t, id), t);
        v := Some(id);
      } else {
        Do(CreateFails(t), t);
        v := None;
      }
    }

    /**
     The whole ioctl by thread t on the VM at this address, given whether there is memory for
     a vcpu and whether anon_inode_getfd succeeds.  It takes one of four ways: its own
     statements, in order, and what it returns are exactly those of that way.
     */
    method CreateVcpu(t: Tid, vmAddress: Word, memory: bool, descriptor: bool, failedFd: int)
      returns (r: Result, ghost way: Way)
      requires Inv(s) && s.file && t !in s.threads && failedFd < 0
      modifies this
      ensures Inv(s) && t !in s.threads
      ensures r == Returned(way, vmAddress, failedFd) && Account(old(s), Statements(t, way), s, t) == Holds
      ensures way.NotMade? ==> r == Code(PtrErr(vmAddress))
      ensures way.Busy? ==> r == Code(-17)
      ensures way.NoDescriptor? ==> r == Code(failedFd)
      ensures way.HandedOff? ==> r == Fd(way.v)
      ensures r.Fd? || r.r >= 0 ==> way.HandedOff? || (way.NotMade? && And(vmAddress, 0x8000_0000) == 0)
      ensures way.NotMade? <==> !memory
      ensures way.NoDescriptor? ==> !descriptor
      ensures way.HandedOff? ==> descriptor && s.vcpu == Some(way.v) && way.v in s.vcpuFiles && way.v !in s.destroyed
      ensures way.Busy? || way.NoDescriptor? ==> way.v in s.destroyed && s.vcpu != Some(way.v) && way.v !in s.handed
    {
      NothingYet(s, t);
      ReportsFailureIff(vmAddress);
      origin, own := s, [];
      var vcpu := Make(t, memory);
      if vcpu.None? {
        return Code(PtrErr(vmAddress)), NotMade;
      }
      r, way := Proceed(t, vcpu.value, descriptor, failedFd);
    }

    /** The call of `yakvm_create_vcpu` (driver/vm.c:54). */
    method Make(t: Tid, memory: bool) returns (v: Option<VcpuId>)
      requires Valid(t) && s.file && t !in s.threads && own == []
      modifies this
      ensures Valid(t) && origin == old(origin) && v.Some? == memory
      ensures v.None? ==> t !in s.threads && own == Statements(t, NotMade)
      ensures v.Some? ==> t in s.threads && s.threads[t] == Built(v.value) && own == Created(t, v.value)
    {
      hide Inv, ByOthers;
      Do(Enter(t), t);
      Preempt(t);
      v := AllocateVcpu(t, memory);
    }

    /** From the lock on (driver/vm.c:62-94). */
    method Proceed(t: Tid, v: VcpuId, descriptor: bool, failedFd: int) returns (r: Result, ghost way: Way)
      requires Valid(t) && t in s.threads && s.threads[t] == Built(v) && own == Created(t, v)
      modifies this
      ensures Ended(t, v, way, descriptor) && origin == old(origin)
      ensures r == Returned(way, 0, failedFd)
    {
      Preempt(t);
      var installed := InstallVcpu(t, v);
      if installed {
        r, way := Publish(t, v, descriptor, failedFd);
      } else {
        Discard(t, v);
        r, way := Code(-EEXIST), Busy(v);
      }
    }

    /** The thread has taken this way to its end. */
    ghost predicate Ended(t: Tid, v: VcpuId, way: Way, descriptor: bool)
      reads this
    {
      && Valid(t) && t !in s.threads && !way.NotMade? && way.v == v && own == Statements(t, way)
      && (way.NoDescriptor? ==> !descriptor)
      && if way.HandedOff? then descriptor && s.vcpu == Some(v) && v in s.vcpuFiles && v !in s.destroyed
         else v in s.destroyed && s.vcpu != Some(v) && v !in s.handed
    }

    /** The descriptor, or the way back (driver/vm.c:75-92). */
    method Publish(t: Tid, v: VcpuId, descriptor: bool, failedFd: int) returns (r: Result, ghost way: Way)
      requires Valid(t) && t in s.threads && s.threads[t] == Referenced(v)
      requires own == Created(t, v) + Locked(t) + InstalledBy(t)
      modifies this
      ensures Ended(t, v, way, descriptor) && origin == old(origin)
      ensures r == Returned(way, 0, failedFd) && !way.Busy?
    {
      Preempt(t);
      if descriptor {
        HandOff(t, v);
        return Fd(v), HandedOff(v);
      }
      Do(GetFdFails(t), t);
      Rollback(t, v);
      Discard(t, v);
      r, way := Code(failedFd), NoDescriptor(v);
    }

    /** Installing under the lock and taking the reference (driver/vm.c:62-73). */
    method InstallVcpu(t: Tid, v: VcpuId) returns (ok: bool)
      requires Valid(t) && t in s.threads && s.threads[t] == Built(v)
      modifies this
      ensures Valid(t) && t in s.threads && s.threads[t] == if ok then Referenced(v) else Rejected(v)
      ensures origin == old(origin) && own == old(own) + Locked(t) + if ok then InstalledBy(t) else [FindBusy(t)]
    {
      ghost var seen, tail := AwaitUnlock(t);
      Do(LockToInstall(t), t);
      Preempt(t);
      if s.vcpu.Some? {
        Do(FindBusy(t), t);
        return false;
      }
      FinishInstall(t, v);
      ok := true;
    }

    /** The vcpu goes in, and the VM gets one more reference (driver/vm.c:71-73). */
    method FinishInstall(t: Tid, v: VcpuId)
      requires Valid(t) && t in s.threads && s.threads[t] == Checking(v) && s.vcpu.None?
      modifies this
      ensures Valid(t) && t in s.threads && s.threads[t] == Referenced(v)
      ensures origin == old(origin) && own == old(own) + InstalledBy(t)
    {
      Do(Install(t), t);
      Preempt(t);
      TakeReference(t, v);
      Regroup(old(own), [Install(t)], [Unlock(t), GetVm(t)]);
    }

    method TakeReference(t: Tid, v: VcpuId)
      requires Valid(t) && t in s.threads && s.threads[t] == Holding(v)
      modifies this
      ensures Valid(t) && t in s.threads && s.threads[t] == Referenced(v)
      ensures origin == old(origin) && own == old(own) + [Unlock(t), GetVm(t)]
    {
      Do(Unlock(t), t);
      Preempt(t);
      Do(GetVm(t), t);
      TwoMore(old(own), Unlock(t), GetVm(t));
    }

    /** A successful anon_inode_getfd (driver/vm.c:76-84). */
    method HandOff(t: Tid, v: VcpuId)
      requires Valid(t) && t in s.threads && s.threads[t] == Referenced(v)
      modifies this
      ensures Valid(t) && t !in s.threads && s.vcpu == Some(v) && v in s.vcpuFiles && v !in s.destroyed
      ensures origin == old(origin) && own == old(own) + [GetFd(t)]
    {
      assert Owns(s.threads[t], v);
      Do(GetFd(t), t);
    }

    /** The put_vm label (driver/vm.c:86-90). */
    method Rollback(t: Tid, v: VcpuId)
      requires Valid(t) && t in s.threads && s.threads[t] == NoFd(v)
      modifies this
      ensures Valid(t) && t in s.threads && s.threads[t] == Dropped(v)
      ensures origin == old(origin) && own == old(own) + [LockToClear(t), Clear(t)] + [UnlockCleared(t), PutVm(t)]
    {
      Preempt(t);
      ClearInstalled(t, v);
      Preempt(t);
      DropReference(t, v);
    }

    method DropReference(t: Tid, v: VcpuId)
      requires Valid(t) && t in s.threads && s.threads[t] == Cleared(v)
      modifies this
      ensures Valid(t) && t in s.threads && s.threads[t] == Dropped(v)
      ensures origin == old(origin) && own == old(own) + [UnlockCleared(t), PutVm(t)]
    {
      Do(UnlockCleared(t), t);
      Preempt(t);
      AnotherHolds(s, t);
      Do(PutVm(t), t);
      TwoMore(old(own), UnlockCleared(t), PutVm(t));
    }

    /** Taking vm->vcpu out again, under the lock: it is still this thread's own vcpu. */
    method ClearInstalled(t: Tid, v: VcpuId)
      requires Valid(t) && t in s.threads && s.threads[t] == NoFd(v)
      modifies this
      ensures Valid(t) && t in s.threads && s.threads[t] == Cleared(v) && s.vcpu == None
      ensures origin == old(origin) && own == old(own) + [LockToClear(t), Clear(t)]
    {
      ghost var seen, tail := AwaitUnlock(t);
      Do(LockToClear(t), t);
      Preempt(t);
      assert s.vcpu == Some(v);
      Do(Clear(t), t);
      TwoMore(old(own), LockToClear(t), Clear(t));
    }

    /** The destroy_vcpu label (driver/vm.c:91-92). */
    method Discard(t: Tid, v: VcpuId)
      requires Valid(t) && t in s.threads && (s.threads[t] == Rejected(v) || s.threads[t] == Dropped(v))
      modifies this
      ensures Valid(t) && t !in s.threads && v in s.destroyed && s.vcpu != Some(v) && v !in s.handed
      ensures origin == old(origin) && own == old(own) + [DestroyVcpu(t)]
    {
      Preempt(t);
      assert Owns(s.threads[t], v);
      NotInstalledHere(s, t);
      Do(DestroyVcpu(t), t);
    }
  }

  /** The put inside the ioctl is never the last: the vm file is held open by the ioctl itself. */
  lemma {:induction false} AnotherHolds(s: Vm, t: Tid)
    requires Inv(s) && t in s.threads && Counted(s.threads[t])
    ensures s.file && s.refcount >= 2
  {
    assert t in Holders(s.threads);
    assert Holders(s.threads) != {};
  }
}
