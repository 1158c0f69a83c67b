/**
 driver/vm.c: the memory of a whole VM, from `yakvm_create_vm` to `yakvm_destroy_vm`.
 The contracts are the NewVm, VmFails and DestroyVm steps of module Isolation.
 */
module VmObjects {
  import opened Words
  import opened Address
  import opened PageTable
  import opened NestedPaging
  import opened VcpuCreation
  import Isolation

  /** `struct vm`, with the vcpu installed in it. */
  class VmResources {
    const handle: nat
    const vmm: Vmm
    var vcpu: Option<VcpuMemory>

    constructor (handle: nat, vmm: Vmm)
      ensures this.handle == handle && this.vmm == vmm && vcpu == None
    {
      this.handle, this.vmm, vcpu := handle, vmm, None;
    }

    /** The table and the vcpu are in memory, apart from each other and from the objects. */
    ghost predicate Valid()
      reads this, vmm, vmm.mem
    {
      && vmm.Valid() && vmm.handle in vmm.mem.objects && handle in vmm.mem.objects && handle != vmm.handle
      && (vcpu.Some? ==>
            && FiveBlocks(vcpu.value) && Frames(vcpu.value) <= vmm.mem.pages.Keys
            && Frames(vcpu.value) !! vmm.table.nodes.Values
            && vcpu.value.handle in vmm.mem.objects && vcpu.value.handle !in {handle, vmm.handle})
    }

    ghost function VcpuFrames(): set<Pfn>
      reads this
    {
      if vcpu.Some? then Frames(vcpu.value) else {}
    }

    /** Everything this VM allocated with kmalloc. */
    ghost function Objects(): set<nat>
      reads this
    {
      {handle, vmm.handle} + if vcpu.Some? then {vcpu.value.handle} else {}
    }

    /** `yakvm_destroy_vm` (driver/vm.c:22-30). */
    method Destroy(cpu: CpuDriver)
      requires Valid() && cpu.mem == vmm.mem
      modifies vmm.mem
      ensures vmm.mem.pages == old(vmm.mem.pages) - old(vmm.table.nodes.Values) - old(VcpuFrames())
      ensures vmm.mem.objects == old(vmm.mem.objects) - old(Objects())
    {
      vmm.Destroy();
      if vcpu.Some? {
        cpu.DestroyVcpu(vcpu.value);
      }
      vmm.mem.Kfree(handle);
    }
  }

  datatype VmResult = Created(vm: VmResources) | NoMemory

  /** `yakvm_create_vm` (driver/vm.c:186-220). */
  method CreateVm(mem: PhysicalMemory, mmio: Word) returns (r: VmResult, ghost left: Npt)
    modifies mem
    ensures r.Created? ==> fresh(r.vm) && r.vm.Valid() && r.vm.vmm.mem == mem && r.vm.vcpu == None
    ensures r.Created? ==> Isolation.TableTaken(old(mem.pages), mem.pages, r.vm.vmm.table, mmio)
    ensures r.Created? ==> mem.objects == old(mem.objects) + r.vm.Objects() && r.vm.Objects() !! old(mem.objects)
    ensures r.NoMemory? ==> LeftBehind(left, mmio) && Taken(old(mem.pages), mem.pages, Rest(left))
    ensures r.NoMemory? ==> mem.objects == old(mem.objects)
    ensures r.NoMemory? ==> |Rest(left)| == LeftPages(mem.calls - old(mem.calls))
    ensures r.NoMemory? ==> (mem.pages == old(mem.pages) <==> mem.calls - old(mem.calls) <= 2)
  {
    hide LeftBehind, Taken, Rest, NoTable, Tree;
    var handle := mem.Kmalloc();
    if handle.None? {
      NothingLeft(mem.pages, mmio);
      return VmResult.NoMemory, NoTable();
    }
    var vmm;
    vmm, left := CreateVmm(mem, mmio);
    if vmm.Failed? {
      mem.Kfree(handle.value);
      return VmResult.NoMemory, left;
    }
    var vm := new VmResources(handle.value, vmm.vmm);
    r := Created(vm);
  }
}
