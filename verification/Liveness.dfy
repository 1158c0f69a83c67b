/**
 driver/vm.c:16-95: nothing gets stuck.  From every state that any interleaving reaches, the
 threads, files and running vcpus that there are can all come to an end, and then the VM and
 every vcpu ever created for it are destroyed.
 */
module Liveness {
  import opened PageTable
  import opened Lifecycle
  import opened VmIoctl

  // Files and vcpus.

  /** The vm file can be closed while no ioctl is in flight; the count goes down by one. */
  lemma {:induction false} FileCloses(s: Vm)
    requires Inv(s) && s.file && s.threads == map[]
    ensures Enabled(s, CloseVm)
    ensures Exec(s, [CloseVm]) == Some(s.(file := false, refcount := s.refcount - 1, dying := s.refcount == 1))
  {
    OneEvent(s, CloseVm);
  }

  /** A vcpu file can be closed while the vcpu is not running; the count goes down by one. */
  lemma {:induction false} VcpuFileCloses(s: Vm, v: VcpuId)
    requires Inv(s) && v in s.vcpuFiles && v !in s.running
    ensures Enabled(s, CloseVcpu(v))
    ensures Exec(s, [CloseVcpu(v)])
            == Some(s.(vcpuFiles := s.vcpuFiles - {v}, refcount := s.refcount - 1, dying := s.refcount == 1))
  {
    OneEvent(s, CloseVcpu(v));
  }

  /** An open vcpu that is not running can be entered, and one that is running can leave. */
  lemma {:induction false} VcpuRuns(s: Vm, v: VcpuId)
    requires Inv(s) && v in s.vcpuFiles
    ensures v !in s.running ==> Exec(s, [EnterGuest(v)]) == Some(s.(running := s.running + {v}))
    ensures v in s.running ==> Exec(s, [LeaveGuest(v)]) == Some(s.(running := s.running - {v}))
  {
    if v in s.running {
      OneEvent(s, LeaveGuest(v));
    } else {
      OneEvent(s, EnterGuest(v));
    }
  }

  /** In every interleaving, once everyone is gone the VM is destroyed, with all its vcpus, unless it has been. */
  lemma {:induction false} LastPutDestroys(schedule: seq<Event>)
    requires Exec(Init(), schedule).Some? && AllGone(Exec(Init(), schedule).value)
    requires Exec(Init(), schedule).value.freed == 0
    ensures var s := Exec(Init(), schedule).value;
            && Exec(s, [DestroyVm]).Some?
            && var s' := Exec(s, [DestroyVm]).value;
            && s'.freed == 1 && s'.vcpu == None && s'.created == s.created
            && multiset(s'.destroyed) == multiset(s'.created)
  {
    var s := Exec(Init(), schedule).value;
    CountIsExact(schedule);
    OneEvent(s, DestroyVm);
    ExecSnoc(Init(), schedule, DestroyVm);
    EveryVcpuDestroyedOnce(schedule + [DestroyVm]);
  }

  // Threads.

  /** How many statements thread t is from its end, on a way that installs no vcpu for good. */
  function Rank(pc: Pc): nat {
    match pc
    case Building => 1
    case Rejected(_) => 1
    case Dropped(_) => 1
    case Unlinked(_) => 2
    case Cleared(_) => 3
    case Clearing(_) => 4
    case NoFd(_) => 5
    case Referenced(_) => 6
    case Installed(_) => 7
    case Holding(_) => 8
    case Checking(_) => 9
    case Built(_) => 10
  }

  function NextOf(s: Vm, t: Tid): Event
    requires t in s.threads
  {
    match s.threads[t]
    case Building => CreateFails(t)
    case Rejected(_) => DestroyVcpu(t)
    case Dropped(_) => DestroyVcpu(t)
    case Unlinked(_) => PutVm(t)
    case Cleared(_) => UnlockCleared(t)
    case Clearing(_) => Clear(t)
    case NoFd(_) => LockToClear(t)
    case Referenced(_) => GetFdFails(t)
    case Installed(_) => GetVm(t)
    case Holding(_) => Unlock(t)
    case Checking(_) => if s.vcpu.Some? then FindBusy(t) else Install(t)
    case Built(_) => LockToInstall(t)
  }

  /** The files and what is running are the same. */
  predicate SameFiles(s: Vm, s': Vm) {
    s'.file == s.file && s'.vcpuFiles == s.vcpuFiles && s'.running == s.running && s'.freed == s.freed
  }

  predicate LockFor(s: Vm, t: Tid) {
    s.lock == None || s.lock == Some(t)
  }

  lemma {:induction false} NextMoves(s: Vm, t: Tid)
    requires LockExact(s) && t in s.threads && LockFor(s, t)
    ensures Enabled(s, NextOf(s, t))
    ensures var s' := Next(s, NextOf(s, t));
            && SameFiles(s, s') && LockFor(s', t) && s'.threads - {t} == s.threads - {t}
            && (t in s'.threads ==> Rank(s'.threads[t]) < Rank(s.threads[t]))
  {
    hide Rank, Next, NextOf;
    NextEnabled(s, t);
    ActorMoves(s, NextOf(s, t));
    NextKeepsFiles(s, t);
    NextLowers(s, t);
  }

  lemma {:induction false} NextEnabled(s: Vm, t: Tid)
    requires LockExact(s) && t in s.threads && LockFor(s, t)
    ensures Enabled(s, NextOf(s, t)) && Actor(NextOf(s, t)) == Some(t)
  {
  }

  lemma {:induction false} NextKeepsFiles(s: Vm, t: Tid)
    requires t in s.threads && Enabled(s, NextOf(s, t)) && LockFor(s, t)
    ensures var s' := Next(s, NextOf(s, t));
            SameFiles(s, s') && LockFor(s', t)
  {
  }

  lemma {:induction false} NextLowers(s: Vm, t: Tid)
    requires t in s.threads && Enabled(s, NextOf(s, t))
    ensures var s' := Next(s, NextOf(s, t)); t in s'.threads ==> Rank(s'.threads[t]) < Rank(s.threads[t])
  {
  }

  lemma {:induction false} NextStatement(s: Vm, t: Tid)
    requires Inv(s) && t in s.threads && LockFor(s, t)
    ensures Enabled(s, NextOf(s, t)) && Inv(Next(s, NextOf(s, t)))
  {
    LockIsExact(s);
    hide Inv;
    NextMoves(s, t);
    StepKeepsInv(s, NextOf(s, t));
  }

  lemma {:induction false} LockIsExact(s: Vm)
    requires Inv(s)
    ensures LockExact(s)
  {
  }

  /** A thread that is not kept out by the lock can run to its end by itself. */
  lemma {:induction false} ThreadEnds(s: Vm, t: Tid) returns (schedule: seq<Event>)
    requires Inv(s) && t in s.threads && LockFor(s, t)
    ensures Exec(s, schedule).Some?
    ensures var s' := Exec(s, schedule).value;
            Inv(s') && SameFiles(s, s') && s'.lock == None && s'.threads == s.threads - {t}
    decreases Rank(s.threads[t])
  {
    var e := NextOf(s, t);
    NextMoves(s, t);
    NextStatement(s, t);
    var s' := Next(s, e);
    var rest: seq<Event> := [];
    if t in s'.threads {
      rest := ThreadEnds(s', t);
    } else {
      assert s'.lock == None;
    }
    schedule := [e] + rest;
    assert schedule[1..] == rest;
  }

  /** All threads can: whoever holds the lock first. */
  lemma {:induction false} ThreadsEnd(s: Vm) returns (schedule: seq<Event>)
    requires Inv(s)
    ensures Exec(s, schedule).Some?
    ensures var s' := Exec(s, schedule).value; Inv(s') && SameFiles(s, s') && s'.threads == map[]
    decreases |s.threads|
  {
    schedule := [];
    if s.threads != map[] {
      var t := FirstToRun(s);
      var first := ThreadEnds(s, t);
      var s' := Exec(s, first).value;
      assert s'.threads.Keys == s.threads.Keys - {t};
      var rest := ThreadsEnd(s');
      ExecAppend(s, first, rest);
      schedule := first + rest;
    }
  }

  lemma {:induction false} FirstToRun(s: Vm) returns (t: Tid)
    requires Inv(s) && s.threads != map[]
    ensures t in s.threads && LockFor(s, t)
  {
    if s.lock.Some? {
      t := s.lock.value;
    } else {
      t :| t in s.threads;
    }
  }

  // Everything.

  lemma {:induction false} VcpuFilesClose(s: Vm) returns (schedule: seq<Event>)
    requires Inv(s) && s.threads == map[]
    ensures Exec(s, schedule).Some?
    ensures var s' := Exec(s, schedule).value;
            Inv(s') && s'.threads == map[] && s'.vcpuFiles == {} && s'.file == s.file && s'.freed == s.freed
    decreases |s.vcpuFiles|
  {
    schedule := [];
    if s.vcpuFiles != {} {
      var v :| v in s.vcpuFiles;
      var first := OneFileCloses(s, v);
      var rest := VcpuFilesClose(Exec(s, first).value);
      ExecAppend(s, first, rest);
      schedule := first + rest;
    }
  }

  lemma {:induction false} OneFileCloses(s: Vm, v: VcpuId) returns (schedule: seq<Event>)
    requires Inv(s) && s.threads == map[] && v in s.vcpuFiles
    ensures Exec(s, schedule).Some?
    ensures var s' := Exec(s, schedule).value;
            && Inv(s') && s'.threads == map[] && s'.vcpuFiles == s.vcpuFiles - {v}
            && s'.file == s.file && s'.freed == s.freed
  {
    var leave: seq<Event> := if v in s.running then [LeaveGuest(v)] else [];
    VcpuRuns(s, v);
    var s1 := Exec(s, leave).value;
    RunKeepsInv(s, leave);
    VcpuFileCloses(s1, v);
    RunKeepsInv(s1, [CloseVcpu(v)]);
    ExecAppend(s, leave, [CloseVcpu(v)]);
    schedule := leave + [CloseVcpu(v)];
  }

  lemma {:induction false} AllLeave(s: Vm) returns (schedule: seq<Event>)
    requires Inv(s)
    ensures Exec(s, schedule).Some? && Inv(Exec(s, schedule).value)
    ensures AllGone(Exec(s, schedule).value) && Exec(s, schedule).value.freed == s.freed
  {
    var threads := ThreadsEnd(s);
    var s1 := Exec(s, threads).value;
    var vcpus := VcpuFilesClose(s1);
    var s2 := Exec(s1, vcpus).value;
    ExecAppend(s, threads, vcpus);
    schedule := threads + vcpus;
    if s2.file {
      FileCloses(s2);
      RunKeepsInv(s2, [CloseVm]);
      ExecAppend(s, schedule, [CloseVm]);
      schedule := schedule + [CloseVm];
    }
  }

  /** After these events the VM has been destroyed, once, and every vcpu ever created, and nobody is left. */
  ghost predicate Ends(schedule: seq<Event>) {
    && Exec(Init(), schedule).Some?
    && var s := Exec(Init(), schedule).value;
    AllGone(s) && s.freed == 1 && multiset(s.destroyed) == multiset(s.created)
  }

  /** From every state of every interleaving there is a way on to the end. */
  lemma {:induction false} AlwaysDestroyable(schedule: seq<Event>)
    requires Exec(Init(), schedule).Some?
    ensures exists rest :: Ends(schedule + rest)
  {
    var s := Exec(Init(), schedule).value;
    InitInv();
    RunKeepsInv(Init(), schedule);
    var rest := AllLeave(s);
    ExecAppend(Init(), schedule, rest);
    if s.freed == 0 {
      LastPutDestroys(schedule + rest);
      ExecAppend(Init(), schedule + rest, [DestroyVm]);
      assert schedule + (rest + [DestroyVm]) == schedule + rest + [DestroyVm];
      rest := rest + [DestroyVm];
    }
    CountIsExact(schedule + rest);
    EveryVcpuDestroyedOnce(schedule + rest);
    assert Ends(schedule + rest);
  }
}
