# yakvm: a Dafny model of a small AMD-V hypervisor

yakvm is a Linux driver and a userspace emulator that together run one 16-bit guest per
virtual machine on AMD-V. This project models its four state machines and how they lean on
each other, and proves what each keeps over all runs.

| module | models |
|---|---|
| `Words`, `Address` | 64-bit words, and the index and entry arithmetic of include/memory.h |
| `PageTable`, `NptCreation`, `Teardown`, `NestedPaging` | driver/memory.c: a four-level table in raw 512-word pages, over an allocator that may fail at any call |
| `GuestMemory` | one VM's memory over whole runs of faults, ioctls, stores and hardware marks |
| `Lifecycle`, `VmIoctl`, `Liveness` | driver/vm.c: reference counting and vcpu installation under every interleaving, and that no state is a dead end |
| `VcpuCreation`, `VmObjects` | the allocations of a vcpu and of a VM, with their rollbacks |
| `Isolation` | any number of VMs in one physical memory: who holds which page, in every reachable state |
| `DriverSteps` | the entry points of the driver as methods, each a step of `Isolation` |
| `WorldSwitch`, `VcpuRegisters` | driver/vcpu_run.S instruction by instruction around an arbitrary guest, and the register transfer |
| `Ioio`, `IdealMachine`, `Emulation`, `ExitHandling`, `Emulator` | tool/cpu.c: exit handlers and run loop, refining a machine with present memory and attached devices |
| `GuestProtocol` | tool/guest.c: the guest's exchange with the devices, as programs |
| `Composition` | how these meet: a run of the world switch in any reachable state of the whole driver, and an entry of the emulator as a run of the vcpu's histories |

How the parts connect. `WorldSwitch` is about a guest that writes only memory it owns and
leaves VM_HSAVE_PA alone (`Confined`). Both are needed (`WorldSwitch.ReachableSaveAreaIsUnsafe`,
`WorldSwitch.MovedSaveAreaIsUnsafe`). What a guest owns is settled by `Isolation`: no page of
any vcpu and no kernel page (`Composition.VcpuPagesAreApart`, `Composition.KernelPagesAreApart`).
That it writes only by stores through its nested table, and no model-specific register, is an
assumption on the guest (`Composition.ActsThrough`), under which `Composition.RunIsSafe` gives
the host back after a run in every reachable state of the driver.
`NptCreation.Created` is the one contract of page creation: the class `NestedPaging.Vmm`
implements it, `GuestMemory` and `Isolation` step by it, and the emulator calls the class.
`Lifecycle` gives each VM's events; `Isolation` runs many of them at once and adds what they
do to memory. The methods of `DriverSteps` call the classes of `NestedPaging`, `VcpuCreation` and
`VmObjects` and take those steps, so that the theorems about runs hold of that code.
`GuestMemory.CreationKeepsContents` makes demand paging invisible, which is
what the emulator's refinement stands on.

The refinement. What an emulated instruction is supposed to do is stated from its bytes alone
(`IdealMachine.OutStep`, `InStep`, `StoreStep`, `LoadStep`), and what the processor reports of it
with the codes of include/cpu.h (`Emulation.PortExits`, `MoveExits`, `HaltExits`). The device handlers overwrite all of rax where the instruction changes AL
(`IdealMachine.InputExactIff`), so the emulated machine is the ideal one with some value x in
rax, and x is tracked exactly (`IdealMachine.NextRax`). A step is supported if the tool
handles the instruction and the instruction does the same, up to rax above AL, with x as with
the ideal rax. While x is the ideal rax that is no condition at all
(`IdealMachine.ExactIsSupported`); after an input over a larger rax it asks only that
instructions ignore the bits above AL until one overwrites them
(`ExitHandling.ExactnessSuffices`).

Where the code and its comments differ, the model follows the code:

- `r = -EEXIST` (driver/memory.c:55) is never returned; a repeated creation is idempotent.
- A creation on the MMIO page after setup fails the assertion at driver/memory.c:57, which is
  `panic`. The outcome `Panicked` is that, and `NptCreation.PanicsIffHidden` says exactly when.
- A failure inside `yakvm_create_vmm` frees only the root and the object (driver/memory.c:121-126).
  The tables linked by then stay allocated: as many as page allocations succeeded below the
  root. `NestedPaging.CreateVmm` says that memory is conserved exactly when at most the first two
  page allocations were asked for, `NestedPaging.SecondFailureLeaks` gives a run that leaks, and
  `Isolation.NothingIsLeft` bounds what is left over a whole
  run: at most three pages for each VM creation that failed.
- When no vcpu can be made, driver/vm.c:56 returns the low half of the pointer to the VM. Userspace
  sees a failure if and only if bit 31 of that address is set (`VmIoctl.ReportsFailureIff`,
  `VmIoctl.FailureLooksLikeFd`).
- Reading and writing back the registers loses segment bases above 16 bits, and the reset base
  of cs is one (`VcpuRegisters.GetThenSetIff`, `VcpuRegisters.ResetBaseIsLost`).
- An access to the MMIO page elsewhere than at the device's address halts the host: the tool asks
  for the page, and the driver's assertion fails (`ExitHandling.OffDeviceAborts`).

## Model

| member | source | states |
|---|---|---|
| Address.TableIndexIsShiftAndMask | include/memory.h:35-49 | the quotient-and-remainder index is the source's shift and mask, at every level, for every address |
| Address.SameIndicesIffSameGpn | include/memory.h:35-49 | two 64-bit addresses take the same four indices if and only if bits 12 to 47 agree |
| Address.IndicesRebuildAddress | include/memory.h:35-49 | the indices and the page offset put together give the low 48 bits |
| Address.EntryPfnIsMask | include/memory.h:52-56 | the frame number of an entry is what the two masks of `yakvm_vmm_page` leave |
| Address.UnpackEntry | driver/memory.c:52-57 | packing a frame with the three flags and unpacking it gives the frame back, with all flags set |
| Address.FlagsAreBits | driver/memory.c:57-67 | testing a flag and clearing the present bit are the source's masks |
| Address.PackEntryIsOr | driver/memory.c:52 | packing by addition is the source's bitwise or, for every frame |
| PageTable.WalkFindsLeaves | driver/memory.c:15-74 | on every well-formed heap the hardware walk, an independent definition over raw words, finds exactly the leaves that are not hidden |
| PageTable.TranslationInjective | driver/memory.c:27-58 | two addresses translated to one page have the same guest page number |
| PageTable.TreeIsDetermined | driver/memory.c:27-58 | the raw memory determines the abstract table: pages, paths and hidden leaves |
| NestedPaging.Vmm.EnsureEntry | driver/memory.c:30-53 | a zero entry gets a fresh zeroed page linked with all flags, any other is kept; on failure nothing changes |
| NestedPaging.Vmm.DescendLevels | driver/memory.c:25-58 | the level loop meets the contract `Created`, whatever the allocator does, ends at the table and index of the leaf, and asks for exactly one page per table or leaf added, plus the one that failed |
| NestedPaging.Vmm.NptCreate | driver/memory.c:15-74 | page creation meets `Created` for both values of is_mmio and keeps the table well formed |
| NptCreation.CreatedTranslation | driver/memory.c:15-74 | afterwards the walk is the old partial map with this page added (or hidden, for MMIO); a failure changes no translation |
| NptCreation.CreatedPage | driver/memory.c:30-56 | an existing page is returned with memory unchanged, a missing one is fresh and zeroed |
| NptCreation.CreatedTakesReachable | driver/memory.c:33-53 | the pages taken are exactly the pages added to the table, also on failure |
| NptCreation.CreatedKeepsData | driver/memory.c:15-74 | every guest page and every page of anyone else keeps its contents |
| NptCreation.PanicsIffHidden | driver/memory.c:57 | the assertion fails if and only if the leaf is the hidden MMIO leaf |
| NestedPaging.Vmm.DestroyTable | driver/memory.c:129-144 | the recursive destroy terminates, never reads or frees a freed page, and frees exactly the pages under its table, hidden leaf included |
| NestedPaging.Vmm.Destroy | driver/memory.c:146-150 | destroying a VMM frees exactly the pages of its table, and its object |
| NestedPaging.CreateVmm | driver/memory.c:76-127 | success gives a well-formed table that hides only the MMIO page, on fresh pages; failure leaves as many tables as page allocations succeeded below the root, so it conserves memory if and only if no more than two were asked for |
| NestedPaging.FirstCreation | driver/memory.c:107-119 | the first creation in a new table cannot panic, takes only free pages and touches no other |
| NestedPaging.SecondFailureLeaks | driver/memory.c:121-126 | a failing creation that leaks: the second allocation below the root fails and the table linked by the first stays |
| GuestMemory.RunKeepsInv | driver/vm.c:98-161 | in every run the table stays well formed, only the MMIO page is hidden, and the userspace and guest views of an offset name one page |
| GuestMemory.RunIsMonotone | driver/memory.c:27-70 | in every run a page once mapped is never remapped |
| GuestMemory.ViewsStayTheSamePage | driver/vm.c:145-161 | a userspace page and the guest's translation of its offset stay the same page for the rest of the run |
| GuestMemory.MmioStaysIntercepted | driver/memory.c:57-68 | in every run the walk of the MMIO page fails, whatever creations follow |
| GuestMemory.CreationKeepsContents | driver/memory.c:30-53 | creating a page changes what no address reads, unmapped memory reading as zero |
| GuestMemory.StoreChangesOnePage | driver/memory.c:27-70 | a guest store changes one word of the page it names and nothing that any other page number reads |
| GuestMemory.StoresAreShared | driver/vm.c:145-161 | what the guest or userspace stores, both find at that offset, and nothing else has changed |
| GuestMemory.MarkKeepsContents | driver/memory.c:27-57 | a mark that leaves the target of a nonzero entry as it is, such as an accessed or dirty bit, changes what no address reads |
| Lifecycle.StepKeepsInv | driver/vm.c:16-95 | every transition of every thread and file keeps count, lock, installation, ownership and destruction exact |
| Lifecycle.CountIsExact | driver/vm.c:16-38 | in every interleaving the count is the vm file, the vcpu files and the threads between get and hand-off or put; the VM is dying or has been destroyed, once, if and only if all are gone |
| Lifecycle.OneVcpuPerVm | driver/vm.c:62-72 | in every interleaving at most one vcpu gets a file, and it stays installed until the VM is destroyed |
| Lifecycle.ClearsItsOwn | driver/vm.c:86-90 | a failing installer clears the vcpu it installed, and no other thread relies on it |
| Lifecycle.EveryVcpuDestroyedOnce | driver/vm.c:22-30 | once the VM is destroyed every vcpu ever created has been destroyed exactly once |
| Lifecycle.RunningIsAlive | driver/cpu.c:23-29 | while a vcpu file is open its VM and the vcpu are alive and the vcpu is installed |
| Liveness.AlwaysDestroyable | driver/vm.c:16-95 | from every state of every interleaving there is a way on, after which nobody is left, the VM has been destroyed once and so has every vcpu ever created |
| Liveness.LastPutDestroys | driver/vm.c:22-38 | in every interleaving, once every file and thread is gone the VM can be destroyed, which destroys each of its vcpus once, unless that has happened |
| Liveness.ThreadEnds | driver/vm.c:48-95 | a thread in the ioctl that the lock does not keep out can run to its end by itself, and leaves the lock free |
| Liveness.FileCloses | driver/vm.c:40-45 | the vm file can be closed whenever no ioctl is in flight, and the VM dies exactly if that was the last reference |
| Liveness.VcpuFileCloses | driver/cpu.c:23-29 | so can a vcpu file while the vcpu does not run |
| Liveness.VcpuRuns | driver/cpu.c:53-116 | an open vcpu can be entered, and can leave, and nothing else changes |
| VmIoctl.VmObject.CreateVcpu | driver/vm.c:48-95 | the ioctl, with other threads between any two statements: success installs and hands off its own vcpu, failure destroys its own vcpu and leaves it uninstalled. It takes one of four ways, by its own statements in order, and returns that way's result: PTR_ERR of the VM exactly without memory, -17 where another vcpu was found installed, the descriptor's code where that failed, and the descriptor of its own vcpu; userspace takes a result for a descriptor only then, or without memory when bit 31 of the address of the VM is clear |
| VmIoctl.ReportsFailureIff | driver/vm.c:55-59 | the code returned when no vcpu can be made is negative if and only if bit 31 of the address of the VM is set |
| VmIoctl.FailureLooksLikeFd | driver/vm.c:55-59 | an address on which that failure looks like a descriptor |
| VmIoctl.VmObject.AwaitUnlock | driver/vm.c:62-89 | once others have been preempted, the holder of the lock releases it in at most two statements of its own |
| VmIoctl.AnotherHolds | driver/vm.c:86-90 | the put on the rollback path is never the last |
| VcpuCreation.CpuDriver.CreateVcpu | driver/cpu.c:405-502 | for every pattern of allocation failures and every limit: five disjoint blocks of free pages, an ASID one above the last and an I/O map that intercepts the device's port only, or memory, objects and counter exactly as before, or a panic exactly when the ASID is not below the limit |
| VcpuCreation.CpuDriver.TakePages | driver/cpu.c:424-499 | the allocations and the rollback labels: all blocks taken and zeroed, or memory as it was |
| VcpuCreation.SetPort | driver/cpu.c:362-369 | setting the device's bit in the zeroed I/O map intercepts that port and none of the other 65535 |
| VcpuCreation.PortIsBit | driver/cpu.c:369 | in the I/O map as a whole the bit of port p is bit p |
| VcpuCreation.VmcbAndMap | driver/cpu.c:381-471 | the map's order is the least that holds 12 KiB; the ASID and nCR3 are at bytes 0x58 and 0xb0 of the VMCB |
| VcpuCreation.IdentifiersDiffer | driver/cpu.c:21-401 | over any sequence of creations since the module was loaded, each identifier is one above the last and at least 2, and the 32-bit count never wraps |
| VcpuCreation.CpuDriver.DestroyVcpu | driver/cpu.c:505-513 | destruction frees exactly the frames of the vcpu, the I/O map at the order it was allocated |
| VcpuCreation.CreateThenDestroy | driver/cpu.c:405-513 | creation followed by destruction is the identity on memory, contents included |
| VmObjects.CreateVm | driver/vm.c:186-220 | success takes a new well-formed table and two objects; failure leaves no object and as many pages as page allocations succeeded below the root, so none if and only if no more than two were asked for |
| VmObjects.VmResources.Destroy | driver/vm.c:22-30 | destroying a VM frees exactly its table, its vcpu's blocks and its objects |
| Isolation.StepKeepsOwned | driver/vm.c:22-95 | every event of every VM keeps each allocated page with exactly one holder |
| Isolation.StepKeepsInv | driver/vm.c:22-161 | every event keeps ownership, every VM's table and vcpus, and the ASIDs well formed |
| Isolation.OpenVcpuWalksLiveTable | driver/cpu.c:381-382 | in every run, while a vcpu file is open the nCR3 in its VMCB is the root of its VM's unfreed, well-formed table |
| Isolation.GuestStoresStayInside | driver/memory.c:52-53 | in every run, every guest store changes one word, of a leaf of its own VM: no table, VMCB, save area, other VM or kernel page |
| Isolation.RunningGuestStores | driver/memory.c:27-58 | a running guest can store any word at any mapped page but the MMIO page |
| Isolation.LivesGoOn | driver/vm.c:16-95 | whatever a file, thread or vcpu of one VM can do next, the whole driver can do |
| Isolation.OthersDoNotInterfere | driver/vm.c:22-161 | whatever others do, for however long, a VM's state is unchanged and it reads the same at every address |
| NestedPaging.AtMostThreeLeft | driver/memory.c:121-126 | what a failed creation leaves is at most three pages, for every page of the device |
| Isolation.LeaksAreBounded | driver/memory.c:121-126 | in every run, failed VM creations have left at most three pages each |
| Isolation.NothingIsLeft | driver/vm.c:22-30 | when all VMs are destroyed the driver holds no page but those of failed VM creations, at most three each, and none if no creation failed |
| Isolation.AsidsAreUnique | driver/cpu.c:395-401 | every vcpu ever created, rejected and destroyed ones included, has an ASID of its own, at least 2 and below the limit |
| DriverSteps.NewVm | driver/vm.c:186-220 | the creation of a VM, and its failure, are steps of the transition system |
| DriverSteps.NewVcpu | driver/cpu.c:405-502 | so is the creation of a vcpu, with the ASID one above the counter, and its failure; it panics exactly when the counter reaches the limit |
| DriverSteps.MmapPage | driver/vm.c:98-109 | so is the creation of a page, which panics exactly on the MMIO page |
| DriverSteps.UserFault | driver/vm.c:145-161 | so is a fault on the mapping, which shows the page at its offset |
| DriverSteps.DropVcpu | driver/vm.c:91-92 | so is the destruction of a vcpu on an error path |
| DriverSteps.DropVm | driver/vm.c:22-38 | so is the destruction of a VM with its table and vcpu |
| WorldSwitch.HostPreserved | driver/vcpu_run.S:15-88 | for every confined guest and all register lists that save what they restore: the saved registers, the stack pointer, the return address and all other memory are as they were |
| WorldSwitch.VcpuRunPreservesHost | driver/vcpu_run.S:17-87 | for the code as it stands: every register but rax, rdx and rdi comes back as it was, and rsp past the return address |
| WorldSwitch.GuestCarried | driver/vcpu_run.S:33-71 | the guest is entered with the registers the vcpu holds, and the vcpu then holds those it left with |
| WorldSwitch.VcpuRunCarriesGuest | driver/vcpu_run.S:33-71 | the same for the code as it stands, for each of the sixteen registers |
| WorldSwitch.SourceLists | driver/vcpu_run.S:17-85 | the source's three register lists meet the conditions of the theorems; the host's is all but rax, rdx, rdi, rsi and rsp |
| WorldSwitch.ContextLayout | include/vcpu_run.h:5-19 | the slots of the fourteen registers of a context follow the VMCB pointer in this order |
| WorldSwitch.VcpuRunRestoresHost | driver/cpu.c:72-110 | for every confined guest the whole run restores every register but rax, rdx, rdi and rsi, the stack pointer included, the state VMRUN exchanges, by way of the page that VM_HSAVE_PA names when the guest exits, and the state only VMLOAD moves, and sets GIF |
| WorldSwitch.ReachableSaveAreaIsUnsafe | driver/cpu.c:62-72 | with a save area that the guest can write, the host can come back with any state |
| WorldSwitch.MovedSaveAreaIsUnsafe | driver/cpu.c:62-72 | so it can if the guest changes VM_HSAVE_PA to a page of its own, though it writes nothing that it does not own |
| Composition.GuestIsConfined | driver/cpu.c:381-382 | in every state of the whole driver that meets the invariant, a guest that acts only by stores of its VM's vcpus through nCR3 writes only to its VM's guest pages |
| Composition.VcpuPagesAreApart | driver/cpu.c:424-476 | no address in a page of any live vcpu, VMCB and save area included, is among those |
| Composition.KernelPagesAreApart | driver/cpu.c:424-476 | nor is an address in any other page of the kernel |
| Composition.RunIsSafe | driver/cpu.c:53-110 | at every state of every run of the driver from boot, YAKVM_RUN for a running vcpu, with its own VMCBs and save area, brings the host back with every register but rax, rdx, rdi and rsi, and with its state, for every guest that acts through nCR3, when the contexts and the stack are on kernel pages: that the guest reaches none of this follows from the run |
| Composition.EntryIsRun | driver/cpu.c:99 | an entry of the guest in the emulator is a run in the sense of the vcpu's histories |
| WorldSwitch.GifClearThroughout | driver/cpu.c:80-110 | after every instruction from CLGI to before STGI, GIF is clear |
| WorldSwitch.Processor.Execute | driver/vcpu_run.S:15-88 | executing the code step by step, changing the machine, computes `Exec` |
| VcpuRegisters.SetThenGet | driver/cpu.c:119-188 | what is set is what is got, for all registers and every input |
| VcpuRegisters.GetThenSetIff | driver/cpu.c:125-185 | writing back what was read leaves the whole vcpu unchanged if and only if cs and ss bases fit in 16 bits |
| VcpuRegisters.GotIsLeft | driver/cpu.c:125-143 | after a run, each register that userspace gets is what the guest left in the register of that name |
| VcpuRegisters.SetIsEntered | driver/cpu.c:167-185 | each register that userspace set is what the next run enters the guest with, in the register of that name |
| VcpuRegisters.ResetBaseIsLost | driver/cpu.c:317-320 | the reset base of cs does not survive the transfer |
| VcpuRegisters.SmallBasesStay | tool/cpu.c:46-53 | over any history whose guest leaves no larger base, the transfer is lossless at every point |
| VcpuRegisters.SwitchRuns | driver/cpu.c:99 | the machine code of the switch implements one run of the histories |
| VcpuRegisters.GuestContinues | driver/cpu.c:53-152 | with no SET_REGS between two runs the guest enters the second exactly as it left the first |
| VcpuRegisters.IdentityStays | driver/cpu.c:381-401 | no run and no transfer changes the table root or the ASID of a vcpu |
| VcpuRegisters.VcpuObject.GetRegsToUser | driver/cpu.c:119-152 | reading changes nothing, and the result can be written back losslessly exactly when both bases fit |
| VcpuRegisters.VcpuObject.SetRegsFromUser | driver/cpu.c:155-188 | the nineteen assignments on fields come to `SetRegs`, and a failed copy changes nothing |
| VcpuRegisters.StartHasSmallBases | tool/cpu.c:46-53 | the tool's first transfer sets both bases, whatever the reset state was |
| Ioio.DecodeEncode | tool/cpu.h:23-43 | the three decoders recover direction, byte size and port of every packed access, whatever the other bits |
| Ioio.DecodersAreFields | tool/cpu.h:23-43 | on any 32-bit word the decoders read bit 0, bit 4 and the upper half |
| IdealMachine.DevicesCount | tool/devices.c:4-23 | the port device answers one more and the memory device one less than was written, wrapping at the ends, and neither disturbs the other |
| IdealMachine.OutStep | tool/cpu.c:148-162 | byte 0xee with the device's port in dx puts AL in the device and moves rip by 1, and nothing else |
| IdealMachine.InStep | tool/cpu.c:148-162 | byte 0xec with the port in dx makes AL one more than was last written, keeps the rest of rax and moves rip by 1, and nothing else |
| IdealMachine.StoreStep | tool/cpu.c:101-122 | bytes 67 88 02 at the device's address put AL in the device and move rip by 3, and nothing else |
| IdealMachine.LoadStep | tool/cpu.c:101-122 | bytes 67 8a 02 at the device's address make AL one less than was last written, keep the rest of rax and move rip by 3, and nothing else |
| IdealMachine.OneStore | driver/memory.c:27-70 | a store of any other instruction changes one word of the page it names |
| IdealMachine.StoresInOrder | driver/memory.c:27-70 | its stores take effect one after the other |
| IdealMachine.InputExactIff | tool/cpu.c:112-150 | an emulated input is exactly the ideal one if and only if rax had no bits above AL |
| IdealMachine.InputClearsAh | tool/cpu.c:149-150 | an input on which AH differs |
| IdealMachine.ExactIsSupported | tool/cpu.c:112-150 | while the emulated rax is the ideal one, a guest may look at all of it |
| IdealMachine.ExactLostIff | tool/cpu.c:112-150 | an exact rax is lost exactly by an input over a value above 255, and found again by an instruction that overwrites it |
| IdealMachine.EmulatedFormIsSupported | tool/cpu.c:71-150 | HLT, IN, OUT and, with the ds base at 0, the two moves are supported wherever the tool can read them, whatever is in rax |
| IdealMachine.NativeIsSupported | tool/cpu.c:172-178 | so is every other instruction that runs, off the MMIO page, where the tool can read the next one |
| Emulation.WriteManyIsStores | driver/memory.c:27-70 | stores through the nested table are stores to the guest's own pages, and keep the table well formed |
| Emulation.CreationShows | driver/vm.c:98-109 | creating a page keeps the memory that the guest sees, fails only on the MMIO page, and returns the page that the guest sees there |
| Emulation.EntryEnds | tool/cpu.c:165-195 | every entry of any guest ends at a page that is not in the table, with nothing changed, or as if no page were missing |
| Emulation.PortExits | tool/cpu.h:15-43 | IN and OUT at the device's port exit with code 0x7b, the direction, size and port in place, and the next rip |
| Emulation.MoveExits | include/cpu.h:515 | a move at the device's address exits with code 0x400 and that address once its own bytes are present |
| Emulation.HaltExits | include/cpu.h:474 | HLT exits with code 0x78 |
| Emulation.RunsWhenPresent | include/cpu.h:430 | any other instruction runs, and exits with code 0x41, only if every page that it touches is present |
| ExitHandling.PageBaseIsMask | tool/cpu.c:131-132 | the page that the tool asks for is the faulting address with the source's mask |
| ExitHandling.DeviceBytes | tool/cpu.c:79-117 | the MMIO handler finds its bytes exactly where the ideal machine decodes a device access |
| ExitHandling.SupportedDoesNotAbort | tool/cpu.c:77-195 | no handler aborts on a supported step |
| ExitHandling.SupportedStepDone | tool/cpu.c:77-195 | what the handlers leave after a supported step is the ideal machine's next state, with the tracked rax |
| ExitHandling.OffDeviceAborts | driver/memory.c:57 | a step that reaches the MMIO page elsewhere than at the device aborts |
| ExitHandling.SurvivesIff | tool/cpu.c:77-195 | for every vcpu and memory, the exits that do not abort are exactly these five: HLT, a readable trap, a byte access to the port, a move with its bytes and rdx in place, a fault at another page |
| ExitHandling.UnknownExitAborts | tool/cpu.c:190-195 | an exit with any other code than the four known ones aborts |
| ExitHandling.ExactnessSuffices | tool/cpu.c:112-150 | a run is supported if its instructions are held to AL only while rax may be inexact |
| ExitHandling.HaltEndsRun | tool/cpu.c:180-182 | a guest whose next byte is HLT halts after one supported step, whatever is in its registers |
| ExitHandling.WithinBudget | tool/cpu.c:203-209 | at any point of a run the entries so far are at most the steps and the pages touched |
| ExitHandling.PagesAreTouched | tool/cpu.c:203-209 | the pages counted are exactly those that hold an address touched by one of the steps |
| GuestProtocol.PortProgram | tool/guest.c:7-20 | OUT, IN, HLT, from any state at that code with the port in dx: three supported steps to a halt, with one more than the byte in AL and the byte in the device |
| GuestProtocol.MoveProgram | tool/guest.c:14-20 | the two moves and HLT: one less, at the device's address |
| GuestProtocol.ProgramsAreExactEnough | tool/guest.c:7-20 | both programs meet the condition of `RunFromStart`, whether or not rax is exact |
| Emulator.EmulatorVm.ReadOpcode | tool/cpu.c:79-117 | the reads through the tool's mapping: the opcode at ip, or an abort exactly where an assertion on the bytes or the mapping fails; `OutOfMemory` exactly when a page allocation failed |
| Emulator.EmulatorVm.EmulateAccess | tool/cpu.c:101-123 | the two device moves on registers and devices for every vcpu, segment bases cut by the transfer, and the abort on another address |
| Emulator.EmulatorVm.HandleMmio | tool/cpu.c:77-124 | for every vcpu and memory: the access that the bytes at ip name, or an abort exactly when they name none or rdx is not the device's address, unless a page allocation failed |
| Emulator.EmulatorVm.HandleNpf | tool/cpu.c:126-134 | a device access at the device's address; elsewhere the page is mapped, or the host panics exactly on the MMIO page, unless a page allocation failed |
| Emulator.EmulatorVm.HandleIoio | tool/cpu.c:136-163 | a port access, decoded from the exit information, on registers and device; an abort exactly on another size or port |
| Emulator.EmulatorVm.HandleExit | tool/cpu.c:165-195 | for every exit: the handler's effect, or an abort exactly when `HandlerAborts` says so, unknown exit codes included, unless a page allocation failed |
| Emulator.EmulatorVm.LogInstruction | tool/cpu.c:172-178 | the log line, whose read of guest memory may itself map a page or abort, changes nothing that the guest sees; it runs out of memory exactly when a page allocation failed |
| Emulator.EmulatorVm.Iterate | tool/cpu.c:203-209 | one iteration for any guest: it maps a page that was missing, or aborts exactly when the step does, or does a supported step; it ends otherwise exactly when one page allocation failed |
| Emulator.EmulatorVm.Run | tool/cpu.c:203-209 | for every guest whose first n steps are supported: if no page allocation fails, the loop ends in the ideal machine's final state if and only if that has halted, and otherwise aborts where its next step does; it gives up for lack of memory if and only if an allocation failed; it enters the guest at most once a step, once a page, and once more if it does not halt |
| Emulator.EmulatorVm.RunFromStart | tool/cpu.c:203-209 | from the tool's start, with instructions held to AL only while rax may be inexact: the loop ends in HLT and in the ideal machine's final state if and only if no page allocation failed, and never aborts |
| Emulator.EmulatorVm.RunPortProgram | tool/guest.c:7-20 | unless a page allocation fails the tool runs that guest to HLT and leaves the byte in its device and one more in rax |
| Emulator.EmulatorVm.RunMoveProgram | tool/guest.c:14-20 | the same for the moves, one less |
| Emulator.Hawk.GetMmio | tool/devices.c:15-18 | the int subtraction, cut to a byte, is one less modulo 256 |

## Left out

- Concurrent page creations: `yakvm_vmm_npt_create` takes no lock, so each is one atomic step, as in the single-threaded emulator.
- The window between a failed file hand-off and `yakvm_destroy_vm` in driver/main.c: `Isolation` treats it as the close of the vm file.
- driver/main.c otherwise: module setup, CPUID and EFER checks, device registration.
- The other fields of the VMCB, their offsets and reset values: only nCR3, the ASID and the I/O map lie in modelled memory; the rest of a VMCB is arbitrary content of its page.
- copy_to_user, copy_from_user, remap_pfn_range and anon_inode_getfd: they succeed or fail as they like; the kernel keeps a file open while an ioctl or a mapping uses it.
- The page reference that a userspace mapping takes (`get_page`): the mapping holds the vm file open, which already keeps the page.
- The value that a failed fault handler returns to the kernel (driver/vm.c:151-156): a failed fault maps nothing.
- The unmapping of userspace pages: the model keeps every mapping it has seen.
- Segment limits and the 16-bit wrap of the instruction pointer: the ideal machine's rip has 64 bits, its linear addresses 32.
- Word wrap of kernel addresses in `WorldSwitch`: stacks and contexts do not wrap around the address space.
- Accessed and dirty bits in the emulator's runs: `GuestMemory.MarkKeepsContents` shows that they are invisible; the processor in `Emulation` does not set them.
- Guest instructions other than IN, OUT, HLT and the two moves: an arbitrary function of the vcpu and memory, each of which touches a list of addresses before it has an effect.
- Interrupts, debug-register side effects and a guest that clears its own trap flag: any such exit or instruction is unsupported.
- Composition.RunIsSafe: `ActsThrough` is an assumption on the guest that this driver's intercepts do not enforce. It intercepts #DB, HLT, IOIO and VMRUN only (driver/cpu.c:358-391): a guest that executes WRMSR on VM_HSAVE_PA, or VMSAVE, which stores at a physical address past the nested walk, does not meet it.
- VmIoctl.VmObject.CreateVcpu: what other threads do between two statements is bounded only by the invariant and by their not moving this thread.
- A device move with a non-zero ds base: the ideal machine, as the processor, takes the device to be at ds base plus edx, the tool asserts on edx alone; `Run` covers the moves where both name it.
- Emulator.EmulatorVm.Run: the guest's registers agree with the ideal machine's but for rax above AL, whose emulated value is given by `RaxAfter`.
- Logging, descriptors' names, argument parsing and file loading in the tool.
