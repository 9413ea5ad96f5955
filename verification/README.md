# Virtual machine support libraries: a verified model

This project models the bookkeeping of the seL4 virtual machine libraries and proves what it keeps
over whole runs. `dafny verify dfyconfig.toml` checks all of it.

Five parts are modelled, each in two layers. The first layer is a state on values with step functions,
and lemmas about every run of them. The second layer has the classes, arrays and loops of the source;
each of its methods is proved to do the step of the first layer. The `*Effects.dfy` files say what each
step does to what a caller can observe, in terms of the arguments of the step alone: which lines and
vectors, which free bytes, which bytes of the stream.

- **Virtual GICv2** (`Vgic*.dfy`, `Words.dfy`): list registers, the 64-slot overflow ring, pending and
  enable words, level-triggered lines. The invariant is that an interrupt is pending exactly when its
  handle sits in one place. It is false in two situations, and the exact condition for every event is
  stated and proved: an accepted injection with the queue full, and a line still high at retirement with
  others queued (`vgic_v2.c` loads the freed register twice). `VgicExample.dfy` gives a run that loses an
  interrupt that way.
- **x86 interrupt path** (`Pic*.dfy`, `LineBytes.dfy`, `Apic*.dfy`): the 8259 pair, the local APIC and the injection
  window. Register bytes of the 8259 and vector bitmaps are sets in the first layer.
- **Memory bookkeeping** (`Dma*.dfy`, `GuestRam*.dfy`, `E820.dfy`, `RamTouch.dfy`, `Reservation*.dfy`,
  `AnonRegions.dfy`): the DMA free lists, the guest RAM list and the e820 map built from it, page-wise
  access to guest memory, reservation trees and anonymous regions.
- **Rings** (`Vchan*.dfy`, `Virtio*.dfy`): the vchan ring under every interleaving of sender and
  receiver, with bytes copied in any order, and the virtio transmit queues with descriptor gathering.
- **Control registers** (`ControlRegisters.dfy`): guest/host masks and read shadows of CR0, CR3 and CR4
  for a 32-bit guest. A register value is the set of its bits that are 1.

`Common.dfy` and `Arith.dfy` hold what several parts share.

Fields described as history (`accepted`, `service`, `sent`, `posted` and the like) record what
has happened so that it can be stated; no operation depends on them.

Properties that turned out not to hold of the code, each with the exact condition under which they do:

- retirement of a line that is still high (`VgicSafety.MaintainKeepsIff`), and a full queue
  (`VgicSafety.InjectKeepsIff`);
- the cascade pin of the 8259 driven from outside (`PicSafety.SetLineKeepsIff`);
- the comparator of RAM regions, which truncates to an int (`GuestRamModel.CmpExactIff`);
- the e820 map when RAM starts at 0 or ends at 4 GiB (`E820.RightIffNotAtZero`, `E820.MapFaithful`);
- free space in an anonymous region whose end is not aligned, and sizes that overflow when rounded up
  (`AnonRegions.PlacedIff`, `AnonRegions.ServeKeepsIff`);
- the overflow test of a reservation (`Reservations.OverflowTestExactIff`);
- a touched range that ends at the top of the address space (`RamTouch.WholeRangeIff`), and one in the top
  page (`RamTouch.WriteEffect`);
- DMA allocation whenever enough bytes in a row are free: the scan needs them in neighbouring free regions
  (`DmaFit.ScanIsFirstFit`), which is not the same around an empty region (`DmaFit.EmptyHolderSplits`);
- virtio packets gathered from memory that cannot be read (`VirtioPackets.StaleIrrelevantIff`);
- virtio rings whose size does not divide 65536 (`VirtioRing.SlotsAgreeIff`);
- taking each virtio head once, if the backend completes packets while it is handed one
  (`VirtioRing.NestedTakesAgain`, `VirtioRing.LaterTakesNew`).

## Model

| member | source | states |
|---|---|---|
| `VgicSafety.InjectKeepsIff` | libsel4vm/src/arch/arm/vgic/vdist.h:202-245 | an injection keeps "pending iff the handle sits in one place, queue used only behind full list registers" exactly unless it is accepted while the overflow queue is full |
| `VgicSafety.MaintainKeepsIff` | libsel4vm/src/arch/arm/vgic/vgic_v2.c:100-126 | retiring a list register keeps that invariant exactly unless the line is still high and deliverable while the overflow queue is not empty |
| `VgicSafety.MaintainLoses` | libsel4vm/src/arch/arm/vgic/vgic_v2.c:100-126 | in that case the queue head (or the re-injected irq, if the queue was full) stays pending and sits nowhere |
| `VgicSafety.MaintainLosesHead` | libsel4vm/src/arch/arm/vgic/vgic_v2.c:117-126 | with room in the queue it is the interrupt that waited longest that is lost |
| `VgicRuns.SetLevelKeepsIff` | libsel4vm/src/arch/arm/vgic/vgic_v2.c:225-248 | a level change keeps the invariant exactly under a condition on the state before it |
| `VgicRuns.EnableKeepsIff` | libsel4vm/src/arch/arm/vgic/vdist.h:166-181 | enabling an irq keeps the invariant exactly under a condition on the state before it |
| `VgicRuns.ClearPendingKeepsIff` | libsel4vm/src/arch/arm/vgic/vdist.h:247-256 | a guest clearing a pending bit keeps the invariant exactly if the bit was clear already |
| `VgicRuns.StepKeepsIff` | libsel4vm/src/arch/arm/vgic/vgic_v2.c:71-247 | every event (injection, level change, enable, disable, register, retirement, ICPENDR write) keeps the invariant exactly when its condition holds |
| `VgicRuns.ResetInv` | libsel4vm/src/arch/arm/vgic/vgic_v2.c:129-182 | the reset state satisfies the invariant for any number of vCPUs |
| `VgicRuns.RunKeeps` | libsel4vm/src/arch/arm/vgic/vgic_v2.c:71-247 | every run of such events keeps the invariant |
| `VgicRuns.PendingIffExactlyOnePlace` | libsel4vm/src/arch/arm/vgic/virq.h:163-177 | in every state a good run from reset reaches, an irq is pending iff its handle is in one list register or queue slot, in only one (per vCPU for SGI and PPI, over all vCPUs for SPI), and a queue is used only while all four registers are |
| `VgicDelivery.RunFifo` | libsel4vm/src/arch/arm/vgic/virq.h:163-222 | in every run, good or not, what was accepted is what was loaded followed by what is queued, in order |
| `VgicDelivery.RunLoads` | libsel4vm/src/arch/arm/vgic/vgic_v2.c:100-126 | after m retirements at least the first m queue entries have been loaded |
| `VgicDelivery.GoodRunLoadsExactly` | libsel4vm/src/arch/arm/vgic/vgic_v2.c:100-126 | in a good run m retirements load exactly m queue entries while the queue lasts |
| `VgicDelivery.LoadedInTurn` | libsel4vm/src/arch/arm/vgic/vgic_v2.c:100-126 | in a good run the handle at queue position k is loaded by the (k+1)-th retirement and not before |
| `VgicDelivery.GoodRunConserves` | libsel4vm/src/arch/arm/vgic/vdist.h:202-245 | in a good run every accepted injection has been retired once or sits in one place |
| `VgicCapacity.NeverFull` | libsel4vm/src/arch/arm/vgic/vdist.h:226-244 | with at most 67 virqs registered for a vCPU its queue is never full when an injection is accepted |
| `VgicCapacity.CapacityRun` | libsel4vm/src/arch/arm/vgic/virq.h:53-65 | if no vCPU ends with more than 67 registered virqs, no enqueue failed in the whole run and the invariant held throughout |
| `VgicCapacity.EnableNeverFull` | libsel4vm/src/arch/arm/vgic/vdist.h:166-181 | with at most 67 registered virqs enabling never overflows the queue |
| `VgicCapacity.FillsUp` | libsel4vm/src/arch/arm/vgic/virq.h:163-177 | the bound is tight: 67 distinct acceptable injections fit and the 68th finds the queue full |
| `VgicCapacity.LostStaysLost` | libsel4vm/src/arch/arm/vgic/vdist.h:202-245 | an interrupt that is pending and sits nowhere stays so through every event except the guest clearing that very bit |
| `VgicExample.AnInterruptIsLost` | libsel4vm/src/arch/arm/vgic/vgic_v2.c:100-126 | a run from reset, without any ICPENDR write, that loses PPI 20 |
| `Vgic.RingPush` | libsel4vm/src/arch/arm/vgic/virq.h:163-177 | pushing onto the 64-slot ring appends, and is refused exactly when 63 handles are held |
| `Vgic.RingPop` | libsel4vm/src/arch/arm/vgic/virq.h:179-192 | popping the ring takes the oldest handle and leaves the rest in order |
| `Vgic.VgicVcpu.Enqueue` | libsel4vm/src/arch/arm/vgic/virq.h:163-177 | the ring buffer in place refines the queue |
| `Vgic.VgicVcpu.Dequeue` | libsel4vm/src/arch/arm/vgic/virq.h:179-192 | the ring buffer in place refines taking the queue head |
| `Vgic.VgicVcpu.FindEmptyListReg` | libsel4vm/src/arch/arm/vgic/virq.h:194-205 | finds the first empty list register or none |
| `Vgic.VgicVcpu.LoadListReg` | libsel4vm/src/arch/arm/vgic/virq.h:207-222 | loads a list register and nothing else |
| `Vgic.GicDist.SetPending` | libsel4vm/src/arch/arm/vgic/vdist.h:31-60 | changes the pending bit of one interrupt in both mirrored registers and no other bit |
| `Vgic.GicDist.SetEnable` | libsel4vm/src/arch/arm/vgic/vdist.h:81-110 | changes the enable bit of one interrupt in both mirrored registers and no other bit |
| `Vgic.VgicController.Inject` | libsel4vm/src/arch/arm/vgic/vdist.h:202-245 | the controller in place makes the injection of the model, including its result code |
| `Vgic.VgicController.HandleLevelOf` | libsel4vm/src/arch/arm/vgic/vgic_v2.c:71-84 | the controller in place re-evaluates a line after retirement as in the model |
| `Vgic.VgicController.Maintain` | libsel4vm/src/arch/arm/vgic/vgic_v2.c:100-126 | the controller in place retires and reloads as in the model |
| `Vgic.VgicController.SetIrqLine` | libsel4vm/src/arch/arm/vgic/vgic_v2.c:225-248 | the controller in place changes a line as in the model |
| `Vgic.VgicController.Enable` | libsel4vm/src/arch/arm/vgic/vdist.h:166-181 | the controller in place enables an irq, injecting if its line is high |
| `Vgic.VgicController.Disable` | libsel4vm/src/arch/arm/vgic/vdist.h:183-200 | the controller in place disables an irq; SGIs stay enabled |
| `Vgic.VgicController.Register` | libsel4vm/src/arch/arm/vgic/vgic_v2.c:184-203 | the controller in place registers a virq, failing where the model does |
| `Vgic.VgicController.WriteBits` | libsel4vm/src/arch/arm/vgic/vdist.h:467-515 | the count-trailing-zeros loop over a written register word acts on every set bit once, in ascending order |
| `Vgic.LowestBitFirst` | libsel4vm/src/arch/arm/vgic/vdist.h:467-515 | taking and clearing the lowest set bit first leaves the same work as taking all bits in order |
| `Vgic.NewController` | libsel4vm/src/arch/arm/vgic/vgic_v2.c:129-182 | a new controller in place, with any number of vCPUs, is the reset state of the model |
| `VgicEffects.StepSeen` | libsel4vm/src/arch/arm/vgic/vgic_v2.c:71-247 | every event does to every interrupt of every vCPU exactly what its arguments say: whether it is registered, its line, whether it is enabled and whether it is pending; in particular a retired or enabled edge-triggered irq has its line low and every other line keeps its level |
| `VgicEffects.StepConfig` | libsel4vm/src/arch/arm/vgic/vdist.h:437-556 | only their own events change the switch and the trigger modes, those of SGIs and PPIs being fixed |
| `VgicEffects.ResultsMean` | libsel4vm/src/arch/arm/vgic/vdist.h:202-245 | registration, injection and level change succeed exactly under conditions on the state before |
| `VgicEffects.RaisedAgain` | libsel4vm/src/arch/arm/vgic/vgic_v2.c:71-126 | an edge-triggered irq whose list register is retired has its line low; raising it again is accepted, once, if the controller is on, the irq enabled and there is room |
| `VgicEffects.ApplyBitSeen` | libsel4vm/src/arch/arm/vgic/vdist.h:467-515 | a bit written to a register acts as the event that the register and the value stand for |
| `PicModel.PriorityIsLeastRank` | libsel4vm/src/arch/x86/i8259/i8259.c:107-119 | the priority found is the rank of a line in the mask and no line of the mask ranks higher; 8 iff the mask is empty |
| `PicModel.GetIrqIffDeliverable` | libsel4vm/src/arch/x86/i8259/i8259.c:142-166 | a line is returned iff it is requested, unmasked, first in rotated priority order and outranks every line in service |
| `PicSafety.UpdateInStepIff` | libsel4vm/src/arch/x86/i8259/i8259.c:219-246 | an update brings cascade and output in step exactly unless the cascade pin was left high by someone else |
| `PicSafety.SetLineKeepsIff` | libsel4vm/src/arch/x86/i8259/i8259.c:185-214 | a level change keeps slave, cascade and output in step exactly unless it leaves the cascade pin high without a slave request |
| `PicSafety.PulseKeeps` | libsel4vm/src/arch/x86/i8259/i8259.c:701-722 | a pulse on any line, the cascade included, keeps the pair in step |
| `PicSafety.ExecuteKeeps` | libsel4vm/src/arch/x86/i8259/i8259.c:319-381 | OCW1 and every OCW2 command keep the pair in step |
| `PicSafety.ReadIrqKeeps` | libsel4vm/src/arch/x86/i8259/i8259.c:608-644 | an acknowledge cycle keeps the pair in step |
| `PicSafety.CascadeDrivenFromOutside` | libsel4vm/src/arch/x86/i8259/i8259.c:219-246 | from any idle pair: the cascade pin raised from outside, taken and ended, hides the next slave request from the output |
| `PicRuns.StepKeepsIff` | libsel4vm/src/arch/x86/i8259/i8259.c:185-644 | every event, pulses on any line included, keeps "a deliverable slave request shows at the master, output tells the truth" exactly when its condition holds |
| `PicRuns.EoiPops` | libsel4vm/src/arch/x86/i8259/i8259.c:319-357 | the highest-priority line in service is the one acknowledged last; ending it pops the nesting stack |
| `PicRuns.EoiEndsLatest` | libsel4vm/src/arch/x86/i8259/i8259.c:319-357 | a non-specific end of interrupt clears exactly the most recently acknowledged line of that controller |
| `PicRuns.RunNests` | libsel4vm/src/arch/x86/i8259/i8259.c:547-564 | over every run with fixed priorities and plain modes service nests on both controllers |
| `PicRuns.InitNests` | libsel4vm/src/arch/x86/i8259/i8259.c:532-543 | the initial pair satisfies the nesting invariant |
| `PicRuns.RunStaysInStep` | libsel4vm/src/arch/x86/i8259/i8259.c:288-400 | over every run, rotations and modes included, the pair stays in step |
| `Pic8259.ScanPriority` | libsel4vm/src/arch/x86/i8259/i8259.c:107-119 | the loop over the bits of a register byte finds the priority of the model |
| `Pic8259.FindIrq` | libsel4vm/src/arch/x86/i8259/i8259.c:142-166 | computes the deliverable line of the model from the register bytes |
| `Pic8259.SetPin` | libsel4vm/src/arch/x86/i8259/i8259.c:185-214 | changes the request bytes as the edge detection of the model changes the sets they stand for |
| `Pic8259.Ack` | libsel4vm/src/arch/x86/i8259/i8259.c:547-564 | changes the register bytes as an acknowledge of the model does |
| `Pic8259.I8259.Update` | libsel4vm/src/arch/x86/i8259/i8259.c:219-246 | the pair in place updates cascade and output as in the model |
| `Pic8259.I8259.SetIrqLevel` | libsel4vm/src/arch/x86/i8259/i8259.c:701-716 | the pair in place changes a line as in the model |
| `Pic8259.I8259.Command` | libsel4vm/src/arch/x86/i8259/i8259.c:319-381 | the pair in place obeys OCW1 and OCW2 as in the model |
| `Pic8259.I8259.Acknowledge` | libsel4vm/src/arch/x86/i8259/i8259.c:608-644 | the pair in place acknowledges as in the model and returns the vector of the deliverable line |
| `PicEffects.ReadVector` | libsel4vm/src/arch/x86/i8259/i8259.c:608-644 | the vector is master base + k for the deliverable master line k other than 2, slave base + j for slave line j behind a deliverable line 2, slave base + 7 if the slave has none, and master base + 7 if the master has none |
| `PicEffects.VectorUnique` | libsel4vm/src/arch/x86/i8259/i8259.c:608-644 | those cases leave exactly one vector |
| `PicEffects.ReadAcknowledges` | libsel4vm/src/arch/x86/i8259/i8259.c:608-644 | the delivered lines, and no other, are acknowledged: in service unless they end by themselves, still requested only if level-triggered; a controller with nothing to deliver is left alone |
| `PicEffects.UpdateSeen` | libsel4vm/src/arch/x86/i8259/i8259.c:219-246 | an update pulses the cascade line exactly if the slave has a deliverable line, changes nothing else, and the output says whether the master then has one |
| `PicEffects.CommandSeen` | libsel4vm/src/arch/x86/i8259/i8259.c:319-381 | OCW1 sets the mask; an end of interrupt takes the highest or the named line out of service and no other; rotation and set-priority give the line the lowest priority; the rest stays |
| `PicEffects.ExecuteSeen` | libsel4vm/src/arch/x86/i8259/i8259.c:319-381 | a command does that to its own controller, and to the other at most the cascade pulse |
| `PicEffects.SetLineSeen` | libsel4vm/src/arch/x86/i8259/i8259.c:185-214 | a pin moves one line of one controller: a level-triggered line is requested while the pin is high, an edge-triggered one from a rise on |
| `PicEffects.RaisedIsAnswered` | libsel4vm/src/arch/x86/i8259/i8259.c:608-644 | raising a low, unmasked master line that outranks everything requested and in service sets the output, and the acknowledge returns its vector |
| `PicEffects.ElcrSeen` | libsel4vm/src/arch/x86/i8259/i8259.c:460-540 | the trigger mode of every interrupt but 0, 1, 2, 8 and 13 is as written, and nothing else changes |
| `Words.Fls` | libsel4vm/src/arch/x86/processor/lapic.c:74-103 | five halvings find one more than the index of the highest set bit, 0 for zero |
| `Words.Ctz` | libsel4vm/src/arch/arm/vgic/vdist.h:467-515 | finds the lowest set bit of a non-zero word |
| `LocalApic.FindHighestVector` | libsel4vm/src/arch/x86/processor/lapic.c:247-260 | the highest set vector of the 256-bit map, or -1 |
| `LocalApic.VectorMap.Set` | libsel4vm/src/arch/x86/processor/lapic.c:147-150 | adds one vector to the map and changes no other |
| `LocalApic.VectorMap.Clear` | libsel4vm/src/arch/x86/processor/lapic.c:152-155 | removes one vector from the map and changes no other |
| `LocalApic.Requests.SetIrr` | libsel4vm/src/arch/x86/processor/lapic.c:294-302 | keeps the summary flag equal to "IRR is not empty" |
| `LocalApic.Requests.ClearIrr` | libsel4vm/src/arch/x86/processor/lapic.c:304-310 | keeps the summary flag equal to "IRR is not empty" |
| `LocalApic.Requests.SetIsr` | libsel4vm/src/arch/x86/processor/lapic.c:312-325 | keeps the count of ISR bits and the cached highest vector right |
| `LocalApic.Requests.ClearIsr` | libsel4vm/src/arch/x86/processor/lapic.c:348-357 | keeps the count of ISR bits and the cached highest vector right |
| `LocalApic.Requests.HighestIrr` | libsel4vm/src/arch/x86/processor/lapic.c:280-292 | the highest requested vector, or -1, using the summary flag |
| `LocalApic.Requests.HighestIsr` | libsel4vm/src/arch/x86/processor/lapic.c:327-346 | the highest vector in service, or -1, using count and cache |
| `ApicModel.TakenOutranks` | libsel4vm/src/arch/x86/processor/lapic.c:1052-1068 | a vector reported for delivery has a class above the task priority and above everything in service, so taking it raises the processor priority |
| `ApicModel.UpdatePpr` | libsel4vm/src/arch/x86/processor/lapic.c:389-416 | the processor priority becomes its definition; only a falling priority leads to acceptance, so taking an interrupt does not re-enter it |
| `ApicModel.Accept` | libsel4vm/src/arch/x86/interrupt.c:176-184 | acceptance leaves nothing deliverable forgotten and never replaces an injection that is set up |
| `ApicModel.HavePending` | libsel4vm/src/arch/x86/interrupt.c:81-106 | injects or asks for the interrupt window, ending a halt |
| `ApicModel.Take` | libsel4vm/src/arch/x86/processor/lapic.c:1034-1049 | taking an interrupt keeps the priority consistent and the injection state untouched |
| `ApicSafety.TakeNests` | libsel4vm/src/arch/x86/processor/lapic.c:1034-1049 | taking a vector keeps service in strictly rising priority classes |
| `ApicSafety.RetiresLatest` | libsel4vm/src/arch/x86/processor/lapic.c:615-635 | the highest vector in service is the one taken last; retiring takes it, and no other vector, out of service and pops the history |
| `ApicSafety.AtMostFifteen` | libsel4vm/src/arch/x86/processor/lapic.c:389-416 | at most 15 vectors are ever in service |
| `ApicSafety.HandleNoLost` | libsel4vm/src/arch/x86/interrupt.c:81-124 | handling any exit, one answered with an exception included, leaves nothing deliverable forgotten, except from the 8259 pair, which the check that follows picks up |
| `ApicSafety.ExitKeeps` | libsel4vm/src/arch/x86/vm.c:144-236 | one exit of the event loop keeps all of it: consistent priority, nesting, nothing lost |
| `ApicSafety.NotificationKeeps` | libsel4vm/src/arch/x86/vm.c:144-236 | one notification of the event loop keeps all of it |
| `ApicSafety.BootSettled` | libsel4vm/src/arch/x86/processor/lapic.c:985-1020 | the vCPU at boot satisfies the loop invariant |
| `ApicSafety.RunKeeps` | libsel4vm/src/arch/x86/vm.c:206-232 | over every run of exits and notifications: a deliverable interrupt finds the window flag set and the vCPU running, priorities consistent, service nested, at most 15 in service |
| `ApicSafety.InjectionNotOverwritten` | libsel4vm/src/arch/x86/interrupt.c:64-124 | an injection set up and not yet delivered survives every turn of the loop |
| `LocalApic.Vcpu.PeekInterrupt` | libsel4vm/src/arch/x86/processor/lapic.c:1052-1068 | reports what the model reports |
| `LocalApic.Vcpu.AcceptInterrupt` | libsel4vm/src/arch/x86/interrupt.c:176-184 | the vCPU in place accepts as in the model, through the re-entrant calls |
| `LocalApic.Vcpu.InjectOrWait` | libsel4vm/src/arch/x86/interrupt.c:81-106 | the vCPU in place injects or waits as in the model |
| `LocalApic.Vcpu.TakeInterrupt` | libsel4vm/src/arch/x86/processor/lapic.c:1034-1049 | the vCPU in place takes an interrupt as in the model |
| `LocalApic.Vcpu.RefreshPpr` | libsel4vm/src/arch/x86/processor/lapic.c:389-416 | the vCPU in place updates the processor priority as in the model |
| `LocalApic.Vcpu.SetTpr` | libsel4vm/src/arch/x86/processor/lapic.c:418-423 | the vCPU in place writes the task priority as in the model |
| `LocalApic.Vcpu.SetEoi` | libsel4vm/src/arch/x86/processor/lapic.c:615-635 | the vCPU in place ends the highest interrupt in service, updates the priority and accepts |
| `LocalApic.Vcpu.Raise` | libsel4vm/src/arch/x86/processor/lapic.c:537-613 | the vCPU in place requests a fixed or lowest-priority vector as in the model |
| `LocalApic.Vcpu.CheckExternalInterrupt` | libsel4vm/src/arch/x86/interrupt.c:164-174 | the vCPU in place checks the 8259 output as in the model |
| `LocalApic.Vcpu.HandleHlt` | libsel4vm/src/arch/x86/halt.c:21-34 | halts only when nothing is deliverable |
| `LocalApic.Vcpu.HandleWindow` | libsel4vm/src/arch/x86/interrupt.c:108-124 | the vCPU in place handles the window exit as in the model |
| `ApicModel.WriteTpr` | libsel4vm/src/arch/x86/processor/lapic.c:418-423 | writing the task priority leaves the processor priority at its definition and never replaces an injection |
| `ApicModel.WriteEoi` | libsel4vm/src/arch/x86/processor/lapic.c:615-635 | an end of interrupt leaves the processor priority at its definition and never replaces an injection |
| `ApicModel.RaiseVector` | libsel4vm/src/arch/x86/processor/lapic.c:537-613 | a request leaves the processor priority at its definition and never replaces an injection |
| `ApicModel.CheckExternal` | libsel4vm/src/arch/x86/interrupt.c:164-174 | the check keeps the processor priority at its definition and never replaces an injection |
| `ApicEffects.NextIs` | libsel4vm/src/arch/x86/processor/lapic.c:1052-1068 | an interrupt is reported exactly if the 8259 output is high and heard or a requested vector has a class above the task priority and everything in service, and it is the highest such vector |
| `ApicEffects.AcceptSeen` | libsel4vm/src/arch/x86/interrupt.c:176-184 | acceptance changes nothing if nothing is pending, delivers what is due if the guest can take it and runs (the vector moves from IRR to ISR, or the 8259 pair is acknowledged and answers with the vector of its deliverable line), and otherwise only asks for the window and ends a halt |
| `ApicEffects.InjectsNowIff` | libsel4vm/src/arch/x86/interrupt.c:64-124 | with an interrupt pending, acceptance sets up the injection of exactly the vector that is due exactly if interrupts are on, not blocked, none is set up and the vCPU runs |
| `ApicEffects.WaitsThenInjects` | libsel4vm/src/arch/x86/interrupt.c:108-124 | what could not be injected at once is injected at the window exit it asked for, as soon as the guest can take it |
| `ApicEffects.EoiSeen` | libsel4vm/src/arch/x86/processor/lapic.c:615-635 | an end of interrupt takes the vector taken last, and no other, out of service; then at most one request moves from IRR to ISR, and what is due is delivered if the guest can take it; with nothing in service nothing changes |
| `ApicEffects.TprSeen` | libsel4vm/src/arch/x86/processor/lapic.c:418-423 | the task priority becomes the value written, at most one request moves from IRR to ISR, and one that becomes deliverable by it is delivered if the guest can take it |
| `ApicEffects.RaiseSeen` | libsel4vm/src/arch/x86/processor/lapic.c:537-613 | in an enabled APIC a raised vector is requested and accepted as due, and is afterwards requested or in service with its injection set up; a disabled APIC ignores it |
| `ApicEffects.CheckSeen` | libsel4vm/src/arch/x86/interrupt.c:164-174 | accepts what is due exactly if the 8259 pair is heard |
| `ApicEffects.HaltSeen` | libsel4vm/src/arch/x86/halt.c:21-34 | halts exactly if nothing is pending and changes nothing else |
| `ApicEffects.WindowSeen` | libsel4vm/src/arch/x86/interrupt.c:108-124 | the window exit delivers what is due and leaves the window open exactly while there is more |
| `DmaSafety.ScanSafe` | libsel4dma/src/dma.c:221-264 | an allocation from a node leaves every live region as it is and grants at most one more, with the size and alignment asked for, although regions are merged, shifted and split |
| `DmaSafety.ReleaseSafe` | libsel4dma/src/dma.c:358-364 | freeing takes exactly the freed handle out of the live ones |
| `DmaSafety.LiveServed` | libsel4dma/src/dma.c:221-264 | every live region is aligned to at least 32 and holds its size inside the node |
| `DmaSafety.LiveApart` | libsel4dma/src/dma.c:88-121 | two live regions of a node do not overlap |
| `DmaSafety.FindMemOwns` | libsel4dma/src/dma.c:101-111 | the search by offset finds the live region that owns the byte |
| `DmaModel.Pad` | libsel4dma/src/dma.c:233-238 | skips less than the alignment and reaches an aligned address |
| `DmaFit.PadLeast` | libsel4dma/src/dma.c:233-238 | it is the first aligned address |
| `DmaFit.ScanIsFirstFit` | libsel4dma/src/dma.c:221-264 | for every list and size, the lazily merging scan returns the lowest aligned place that a run of neighbouring free regions has room for, and nothing exactly when there is none |
| `DmaFit.ScanFailsIffNoBytes` | libsel4dma/src/dma.c:221-264 | in bytes: if no holder is empty, which suffices, the scan fails exactly when no aligned block of wholly free bytes is left |
| `DmaFit.EmptyHolderSplits` | libsel4dma/src/dma.c:241-259 | with a zero-byte holder in between, a block of free bytes is not found, so the byte form needs a condition |
| `DmaRuns.BlockServed` | libsel4dma/src/dma.c:266-331 | a live block of any node is aligned to max(align, 32) and inside its node |
| `DmaRuns.LiveDisjoint` | libsel4dma/src/dma.c:266-331 | distinct live blocks never overlap, physically or virtually |
| `DmaRuns.ProvideSafe` | libsel4dma/src/dma.c:153-195 | providing memory changes nothing live |
| `DmaRuns.AllocSafe` | libsel4dma/src/dma.c:266-331 | an allocation, through existing nodes or morecore, adds one block as asked for or none, and changes no other |
| `DmaRuns.AllocFailsIff` | libsel4dma/src/dma.c:266-295 | without morecore, allocation of any size fails exactly when in no node a run of neighbouring free regions has aligned room for it |
| `DmaRuns.MoreServesIff` | libsel4dma/src/dma.c:298-317 | the assertion after morecore holds exactly when the new memory has room behind its first aligned address |
| `DmaRuns.FreeSafe` | libsel4dma/src/dma.c:358-364 | freeing a handle removes that block and no other, over all nodes |
| `DmaRuns.UnusedIff` | libsel4dma/src/dma.c:333-356 | the test for returning a node holds exactly if it has no live region |
| `DmaRuns.ReclaimSafe` | libsel4dma/src/dma.c:333-356 | memory is given back exactly when some node has no live block, from the first such node, and nothing live changes |
| `DmaRuns.RunSafe` | libsel4dma/src/dma.c:153-364 | over any run of provide, alloc, free and reclaim every block stays at its offset with its size and alignment until it is itself freed |
| `DmaRuns.VlookupOwns` | libsel4dma/src/dma.c:407-426 | lookup of any byte of a live block gives that block |
| `DmaRuns.FreeByAddress` | libsel4dma/src/dma.c:486-492 | freeing by address frees exactly the block that owns the address |
| `Dma.MemNode.CompactAt` | libsel4dma/src/dma.c:113-121 | the loop that unlinks neighbours ends in the merged list of the model |
| `Dma.MemNode.Alloc` | libsel4dma/src/dma.c:221-264 | the loop that merges, shifts and splits the list ends in the list and the region of `DmaModel.Scan` |
| `Dma.MemNode.Free` | libsel4dma/src/dma.c:358-364 | clears the flag and merges behind it; touches its own node only |
| `Dma.MemNode.Find` | libsel4dma/src/dma.c:101-111 | the loop finds the element `DmaModel.FindMem` names |
| `Dma.DmaAllocator.Provide` | libsel4dma/src/dma.c:153-195 | prepends a node with one free region |
| `Dma.DmaAllocator.Alloc` | libsel4dma/src/dma.c:266-331 | the loop over nodes, then morecore, ends in the nodes and the block of `DmaModel.Alloc` |
| `Dma.DmaAllocator.Reclaim` | libsel4dma/src/dma.c:333-356 | the loop that merges heads and unlinks the first unused node ends as `DmaModel.ReclaimIn` |
| `Dma.DmaAllocator.Vlookup` | libsel4dma/src/dma.c:407-426 | the loops over nodes and regions find the element `DmaModel.Vlookup` names |
| `Dma.DmaAllocator.FreeAddress` | libsel4dma/src/dma.c:486-492 | frees the element the address belongs to, or nothing if it is in no node |
| `DmaEffects.ScanBytes` | libsel4dma/src/dma.c:221-264 | a scan that grants a block takes it at the first aligned address of a run of free regions; the free bytes of the node lose the block and the padding in front of it, and the rest of the run only if there is no memory for a list element |
| `DmaEffects.FailedScanBytes` | libsel4dma/src/dma.c:221-264 | a scan that grants nothing changes no free byte |
| `DmaEffects.ReleaseBytes` | libsel4dma/src/dma.c:358-364 | freeing an element makes the bytes from it to the next element free and changes no other |
| `DmaEffects.BlockIsFreed` | libsel4dma/src/dma.c:358-364 | every byte of a block is free once the block has been freed |
| `DmaEffects.AllocFromNode` | libsel4dma/src/dma.c:266-295 | if some node has a place, the first such node serves the request in that way, and no other node gains or loses a free byte |
| `DmaEffects.AllocFails` | libsel4dma/src/dma.c:266-317 | if none has one and morecore provides nothing, the request fails and no free byte changes |
| `DmaEffects.AllocFromMore` | libsel4dma/src/dma.c:298-317 | otherwise the memory of morecore becomes a node that serves the request exactly if it has room behind its first aligned address, and all the rest of it is free |
| `DmaEffects.AlignedAsAsked` | libsel4dma/src/dma.c:266-331 | a granted block has the size asked for and is aligned to the alignment asked for, or to 32 if that is less |
| `DmaEffects.FreeBytes` | libsel4dma/src/dma.c:358-364 | over all nodes, freeing a handle makes its bytes free in its own node and changes nothing else; an unknown handle changes nothing |
| `DmaEffects.ReclaimBytes` | libsel4dma/src/dma.c:333-356 | in the nodes passed on the way a used head swallows the free regions directly behind it and nothing else changes; those behind the node handed back are as they were |
| `GuestRamModel.SubregionInWords` | libsel4vm/src/guest_memory.h:20-25 | the test in 64-bit words, which subtracts instead of adding, is true exactly if the range is contained: nothing overflows |
| `GuestRamModel.CmpExactIff` | libsel4vm/src/guest_ram.c:47-52 | the int-valued comparator orders two addresses correctly exactly under a condition on their distance modulo 2^32 |
| `GuestRamModel.CmpInconsistent` | libsel4vm/src/guest_ram.c:47-52 | two regions 2 GiB apart each compare below the other |
| `GuestRamSafety.SortChain` | libsel4vm/src/guest_ram.c:54-57 | sorting disjoint regions that the comparator orders correctly gives an ascending chain |
| `GuestRamSafety.SortedUnique` | libsel4vm/src/guest_ram.c:54-57 | any ascending list of the same regions is the same list, so the sorting algorithm does not matter |
| `GuestRamSafety.CollapseKeeps` | libsel4vm/src/guest_ram.c:71-87 | merging leaves an ascending, disjoint, maximally merged list |
| `GuestRamSafety.CollapseMap` | libsel4vm/src/guest_ram.c:71-87 | merging changes the status of no byte |
| `GuestRamSafety.CanonicalUnique` | libsel4vm/src/guest_ram.c:71-87 | two sorted, disjoint, maximally merged lists with the same map are equal |
| `GuestRamRuns.ExpandSafe` | libsel4vm/src/guest_ram.c:89-108 | if the comparator is exact on the list being sorted, expansion adds the new bytes as free and changes no other |
| `GuestRamRuns.MarkActsIff` | libsel4vm/src/guest_ram.c:218-245 | marking acts exactly when every byte of the range is free |
| `GuestRamRuns.MarkSafe` | libsel4vm/src/guest_ram.c:218-245 | marking turns exactly the bytes of the range from free to allocated, or changes nothing |
| `GuestRamRuns.MarkNothing` | libsel4vm/src/guest_ram.c:218-245 | marking an empty range gives the same list back |
| `GuestRamRuns.AllocateSafe` | libsel4vm/src/guest_ram.c:247-259 | allocation takes a wholly free range and marks it, and fails exactly when there is none of that size |
| `GuestRamRuns.AllocateNothing` | libsel4vm/src/guest_ram.c:247-259 | an empty request changes nothing and is granted exactly if some region is free |
| `GuestRamRuns.RunKeeps` | libsel4vm/src/guest_ram.c:28-259 | over any run in which the comparator is exact on every list that is sorted, the list stays canonical and no two non-empty allocations overlap |
| `GuestRamRuns.WithinSuffices` | libsel4vm/src/guest_ram.c:47-52 | RAM within 2 GiB meets that condition |
| `GuestRamRuns.LargeRegionIsComparable` | libsel4vm/src/guest_ram.c:47-52 | so does a single region of more than 2 GiB |
| `GuestRam.RamList.CollapseRegions` | libsel4vm/src/guest_ram.c:71-87 | the loop that unlinks neighbours ends in the merged list of the model |
| `GuestRam.RamList.ExpandBy` | libsel4vm/src/guest_ram.c:89-108 | refused exactly for an empty region; ends in `GuestRamModel.Expand` |
| `GuestRam.RamList.IsRam` | libsel4vm/src/guest_ram.c:110-122 | true exactly if some region contains the range |
| `GuestRam.RamList.MarkAllocated` | libsel4vm/src/guest_ram.c:218-245 | search, removal, three pushes, sort and merge end in `GuestRamModel.Mark` |
| `GuestRam.RamList.AllocateBytes` | libsel4vm/src/guest_ram.c:247-259 | the first-fit loop returns and marks as `GuestRamModel.Allocate` |
| `GuestRam.RamList.LargestFree` | libsel4vm/src/guest_ram.c:193-216 | a largest free region, or none exactly if no free byte is listed |
| `E820.MapFaithful` | libsel4vmmplatsupport/src/arch/x86/guest_boot_init.c:136-181 | for RAM not at 0, the map exists exactly when RAM ends below 4 GiB and the entries fit; it tiles the 4 GiB without gap, overlap or empty entry, is RAM exactly where regions are, and has 2k+1 entries for k stretches |
| `E820.TileOf` | libsel4vmmplatsupport/src/arch/x86/guest_boot_init.c:136-181 | in a tiling every address is in exactly one entry |
| `E820.RightIffNotAtZero` | libsel4vmmplatsupport/src/arch/x86/guest_boot_init.c:136-181 | the map is right exactly when the first region does not start at 0; otherwise the first stretch is reported as reserved |
| `E820.MakeMap` | libsel4vmmplatsupport/src/arch/x86/guest_boot_init.c:136-181 | the loop over an array of 128 entries builds the map of the model, or fails an assertion exactly where the model does |
| `RamTouch.WriteEffect` | libsel4vm/src/guest_ram.c:155-191 | a write stores the bytes up to the first address that is not mapped or lies in the top page of the address space, touches no other byte, and reports which of the two stopped it or that none did |
| `RamTouch.ReadEffect` | libsel4vm/src/guest_ram.c:155-191 | a read returns the bytes up to the first such address and reports likewise |
| `RamTouch.RoundTrip` | libsel4vm/src/guest_ram.c:155-191 | what a write stored it reads back |
| `RamTouch.TopPageOverruns` | libsel4vm/src/guest_ram.c:177-181 | in the top page the end of the page is 0 in words, so the chunk is larger than the range |
| `RamTouch.ReservedNeverOverrun` | libsel4vm/src/guest_memory.c:236-241 | with reservations that pass the test of vm_reserve_memory_at that cannot happen, and a write succeeds exactly if the whole range is mapped |
| `RamTouch.WholeRangeIff` | libsel4vm/src/guest_ram.c:160-168 | the loop bound in words: the loop runs over the whole range exactly if it does not end at 2^64; one that does is skipped and reported as a success |
| `RamTouch.GuestRoundTrip` | libsel4vmmplatsupport/src/drivers/virtio_emul_helpers.c:12-34 | for a range that ends below the top of the address space, a write succeeds exactly if the range is in one RAM region and every byte is mapped by a page that does not end at 2^64, and then it reads back with every other byte unchanged |
| `RamTouch.Reach` | libsel4vm/src/guest_ram.c:168-190 | every byte before the reach is mapped below the top page and the next is not |
| `RamTouch.SamePage` | libsel4vm/src/guest_ram.c:177-181 | a page lies in one reservation, so a chunk never crosses a page |
| `RamTouch.ChunkSize` | libsel4vm/src/guest_ram.c:178-181 | below the top page each chunk is not empty, inside the range and inside one page |
| `RamTouch.ChunkSizeInWords` | libsel4vm/src/guest_ram.c:178-181 | the 64-bit computation of the source gives this size |
| `RamTouch.GuestMemory.NextChunk` | libsel4vm/src/guest_ram.c:168-184 | tells an unmapped page, a chunk that would overrun, and the next chunk apart |
| `RamTouch.GuestMemory.WriteMem` | libsel4vm/src/guest_ram.c:168-190 | the page loop storing chunk by chunk ends in the pages and the result of `RamTouch.Write` |
| `RamTouch.GuestMemory.ReadMem` | libsel4vm/src/guest_ram.c:168-190 | the page loop collecting chunk by chunk returns the bytes and the result of `RamTouch.Read` |
| `RamTouch.GuestMemory.WriteGuestMem` | libsel4vmmplatsupport/src/drivers/virtio_emul_helpers.c:26-29 | checks the RAM list, then runs the loop; ends as `RamTouch.WriteGuest` |
| `RamTouch.GuestMemory.ReadGuestMem` | libsel4vmmplatsupport/src/drivers/virtio_emul_helpers.c:31-34 | checks the RAM list, then runs the loop; returns as `RamTouch.ReadGuest` |
| `ReservationTree.CmpMeans` | libsel4vm/src/guest_memory.c:72-86 | on non-empty ranges the comparator finds overlap, is antisymmetric and puts the range that ends first first |
| `ReservationTree.CmpTransitive` | libsel4vm/src/guest_memory.c:72-86 | the comparator is transitive on non-empty ranges |
| `ReservationTree.CmpPoint` | libsel4vm/src/guest_memory.c:104-106 | the empty range used for lookup equals exactly the ranges that contain the address |
| `ReservationTree.FindSound` | libsel4vm/src/guest_memory.c:108-113 | in a tree of any shape the descent finds a matching entry, and fails only if none matches |
| `ReservationTree.FindByAddress` | libsel4vm/src/guest_memory.c:96-115 | lookup by address gives the one entry that contains it, if there is one |
| `ReservationTree.ShapeIrrelevant` | libsel4vm/src/guest_memory.c:88-89 | trees with the same entries in order answer lookups of addresses and ranges alike and have the same entries after insertion and deletion, so rebalancing does not matter |
| `ReservationTree.InsertOrdered` | libsel4vm/src/guest_memory.c:171-187 | adding an entry that matches none keeps the order and adds exactly it |
| `ReservationTree.DeleteOrdered` | libsel4vm/src/guest_memory.c:139-147 | deleting an entry keeps the order and removes exactly it |
| `Reservations.AddIff` | libsel4vm/src/guest_memory.c:151-193 | a reservation is added exactly when it overlaps none that is there |
| `Reservations.RemoveExact` | libsel4vm/src/guest_memory.c:117-149 | removal takes out the entry with exactly this range, if there is one, and nothing else |
| `Reservations.RunIsIdeal` | libsel4vm/src/guest_memory.c:117-193 | over any run the tree stays ordered and disjoint and holds exactly what a plain set of ranges would |
| `Reservations.OverflowTestExactIff` | libsel4vm/src/guest_memory.c:236-241 | the overflow test is right exactly for ranges that do not reach beyond the address space |
| `AnonRegions.PlacedIff` | libsel4vm/src/guest_memory.c:195-217 | in 64-bit words: an accepted anonymous reservation is inside its region exactly when its aligned start is not beyond the end of the region and rounding its size up does not overflow |
| `AnonRegions.FullRegionAccepts` | libsel4vm/src/guest_memory.c:209-214 | a full region whose end is not aligned still accepts a request |
| `AnonRegions.HugeRequestAccepted` | libsel4vm/src/guest_memory.c:424-452 | in every region with room for its start, a size within a page of 2^64 is accepted and advances nothing, so the next reservation has the same start |
| `AnonRegions.ServeKeepsIff` | libsel4vm/src/guest_memory.c:411-457 | a request leaves the reservations disjoint and inside the region exactly if it is refused or fits |
| `AnonRegions.ServeAllKeeps` | libsel4vm/src/guest_memory.c:411-457 | over any run of such requests they stay disjoint and inside the region |
| `AnonRegions.AlignedEndIsGood` | libsel4vm/src/guest_memory.c:411-457 | every run is one if alignments divide the end of the region and sizes stay a page below 2^64 |
| `AnonRegions.ServeSeen` | libsel4vm/src/guest_memory.c:411-457 | a request that fits is served exactly if it is not empty and has room, rounded to pages, behind the first aligned address of the unallocated part; it gets that address and its own size |
| `AnonRegions.StepSeen` | libsel4vm/src/guest_memory.c:338-483 | each operation adds exactly its range if that overlaps none, removes exactly its range, or serves one region, and changes nothing else |
| `Reservations.ReservationCookie.FindMember` | libsel4vm/src/guest_memory.c:88-89 | the descent as a loop over any tree finds what `ReservationTree.Find` finds |
| `Reservations.ReservationCookie.AddNode` | libsel4vm/src/guest_memory.c:151-193 | adds to one of the two trees as `Reservations.Add`, leaves the other, keeps both ordered |
| `Reservations.ReservationCookie.RemoveNode` | libsel4vm/src/guest_memory.c:117-149 | removes from one of the two trees as `Reservations.Remove`, leaves the other, keeps both ordered |
| `Reservations.ReservationCookie.FindByAddress` | libsel4vm/src/guest_memory.c:96-115 | the entry containing an address, regular ones first, or none exactly if there is none |
| `AnonRegions.AnonRegion.ReserveAnon` | libsel4vm/src/guest_memory.c:411-457 | returns an aligned start and appends the reservation, or changes nothing |
| `AnonRegions.AnonRegion.FindReservation` | libsel4vm/src/guest_memory.c:260-286 | the one reservation of the region containing an address, or none exactly if there is none |
| `AnonRegions.LookupOwns` | libsel4vm/src/guest_memory.c:288-302 | the lookup through both trees and all regions gives an owner of the address, the only one of its kind, and none exactly if there is none |
| `AnonRegions.StepKeepsIff` | libsel4vm/src/guest_memory.c:338-483 | reserving at an address, making a region, reserving in a region and releasing keep the trees ordered and the reservations disjoint and inside, exactly unless a request is served that does not fit |
| `AnonRegions.RunKeeps` | libsel4vm/src/guest_memory.c:338-483 | so does every run of them |
| `AnonRegions.RunLookupOwns` | libsel4vm/src/guest_memory.c:288-302 | after every such run from nothing the lookup finds an owner of the address, and none exactly if there is none |
| `AnonRegions.FindOwner` | libsel4vm/src/guest_memory.c:288-302 | the lookup with its loop over regions gives the answer of `AnonRegions.Lookup` |
| `VchanModel.SlotIsMod` | libsel4vchan/src/vchan_component.c:195-195 | the slot of a position is the position modulo the buffer size |
| `VchanSafety.StepKeeps` | libsel4vchan/src/vchan_component.c:152-243 | every step of either side keeps positions in bounds, unread bytes in their slots and received a prefix of sent |
| `VchanSafety.RunKeeps` | libsel4vchan/src/vchan_component.c:152-243 | so does every interleaving of steps |
| `VchanSafety.Fifo` | libsel4vchan/src/vchan_component.c:152-243 | under every interleaving the bytes received are a prefix of those sent, at most a buffer behind, and every call that returned moved exactly what it reports, all of it without streaming |
| `VchanSafety.NeverBothWait` | libsel4vchan/src/vchan_component.c:179-185 | the two sides never wait for each other |
| `VchanSafety.SendMeetsRecv` | libsel4vchan/src/vchan_component.c:90-98 | a non-stream receive of the same size at the same position gets exactly what a non-stream send was given |
| `VchanEffects.CallsFifo` | libsel4vchan/src/vchan_component.c:90-227 | under every interleaving each call returns for its own arguments in the order of the calls, the stream is what the send calls were given, one after the other, and what the receive calls hand to their callers is a prefix of it |
| `VchanEffects.DataFifo` | libsel4vchan/src/vchan_component.c:90-227 | without streaming the receive calls hand over a prefix of all data given to the send calls, and the stream is all of it whenever no send is in progress |
| `VchanEffects.SnapshotSeen` | libsel4vchan/src/vchan_component.c:178-226 | each turn goes at once for as much as is left of the call and the other side allows, and waits only if that is nothing |
| `Vchan.VchanBuf.SendOnce` | libsel4vchan/src/vchan_component.c:178-226 | one turn of a send, with its two block copies, appends as many bytes as fit |
| `Vchan.VchanBuf.RecvOnce` | libsel4vchan/src/vchan_component.c:178-226 | one turn of a receive, with its two block copies, removes the oldest bytes |
| `Vchan.VchanBuf.Send` | libsel4vchan/src/vchan_component.c:152-243 | a whole non-stream send loses and reorders nothing, and is unfinished only if the buffer is full and the peer stopped reading |
| `VirtioGather.PartOf` | libsel4vmmplatsupport/src/drivers/virtio_net_emul.c:165-181 | a descriptor adds exactly the bytes between the packet lengths before and after it, the length after k descriptors being what they hold behind the header, cut at the buffer size |
| `VirtioGather.GatherIs` | libsel4vmmplatsupport/src/drivers/virtio_net_emul.c:164-182 | if every part is copied whole, byte j of the packet is byte header + j of the chain, as many as fit, however header and payload are split over descriptors |
| `VirtioPackets.CopiedIs` | libsel4vmmplatsupport/src/drivers/virtio_emul_helpers.c:12-34 | a read of guest memory copies exactly its contents if nothing is asked for or all of it is in RAM and mapped, and less than was asked for otherwise |
| `VirtioPackets.SendsChain` | libsel4vmmplatsupport/src/drivers/virtio_net_emul.c:158-182 | if every non-empty part is in RAM and mapped, the packet is the bytes of the chain behind the header, cut at the buffer size |
| `VirtioPackets.ReadableIff` | libsel4vmmplatsupport/src/drivers/virtio_emul_helpers.c:12-34 | with reservations that pass the test of the library, a read copies everything exactly if nothing is asked for or the range is in RAM and mapped |
| `VirtioPackets.StaleIrrelevantIff` | libsel4vmmplatsupport/src/drivers/virtio_net_emul.c:158-182 | with such reservations the packet does not depend on what was in the buffer exactly if every non-empty part is in RAM and mapped: the results of the reads are ignored |
| `VirtioPackets.GatherNet` | libsel4vmmplatsupport/src/drivers/virtio_net_emul.c:158-182 | the descriptor walk into a 2048-byte buffer, behind a 10-byte header, ends in that packet for every finite chain and changes nothing behind it |
| `VirtioPackets.GatherVsock` | libsel4vmmplatsupport/src/drivers/virtio_vsock_emul.c:110-124 | the descriptor walk that stops at a full buffer ends in the same packet as one that does not, with no header, for every finite chain |
| `VirtioRing.SlotsAgreeIff` | libsel4vmmplatsupport/src/drivers/virtio_emul.c:11-35 | wrapped 16-bit indices find the slots of unwrapped ones exactly if the ring size divides 65536 |
| `VirtioRing.NextIsOldest` | libsel4vmmplatsupport/src/drivers/virtio_emul.c:11-23 | in a ring of such a size the indices differ exactly when something is new, and the slot read holds the oldest head not yet taken |
| `VirtioRing.RunKeeps` | libsel4vmmplatsupport/src/drivers/virtio_net_emul.c:122-211 | over any run heads are taken in the order posted, and each is returned once, in flight, or given up |
| `VirtioRing.DropsIffRefused` | libsel4vmmplatsupport/src/drivers/virtio_net_emul.c:189-198 | over a run the heads given up are those whose packet the backend refused: with no refusal none is |
| `VirtioRing.VsockReturnsAll` | libsel4vmmplatsupport/src/drivers/virtio_vsock_emul.c:96-137 | one notification takes every new head and appends each to the used ring once, in order |
| `VirtioRing.NetTakesInOrder` | libsel4vmmplatsupport/src/drivers/virtio_net_emul.c:138-204 | one notification takes the oldest new heads, as many as there are buffers for, and accounts for each |
| `VirtioRing.VirtQueue.AddUsed` | libsel4vmmplatsupport/src/drivers/virtio_emul.c:32-39 | appends one used entry and advances the 16-bit index |
| `VirtioRing.VirtQueue.NotifyVsockTx` | libsel4vmmplatsupport/src/drivers/virtio_vsock_emul.c:96-137 | the loop over the available ring ends in the rings and indices of `VirtioRing.NotifyVsock` |
| `VirtioRing.NestedTakesAgain` | libsel4vmmplatsupport/src/drivers/virtio_net_emul.c:206-211 | a completion that comes while the backend is being handed a packet starts a notification from the old position: it takes the heads of the interrupted one again, from the first on |
| `VirtioRing.LaterTakesNew` | libsel4vmmplatsupport/src/drivers/virtio_net_emul.c:206-211 | one that comes between notifications takes only heads that are new, oldest first |
| `VirtioRing.VirtQueue.NotifyNetTx` | libsel4vmmplatsupport/src/drivers/virtio_net_emul.c:138-204 | the loop over the available ring, given the answers of the backend and no completion inside its calls, ends in the rings and indices of `VirtioRing.NotifyNet` |
| `VirtioGather.WantedIs` | libsel4vmmplatsupport/src/drivers/virtio_net_emul.c:158-182 | the wanted packet is the concatenated chain from the end of the header on, cut at the room there is |
| `VirtioEffects.StepFlows` | libsel4vmmplatsupport/src/drivers/virtio_net_emul.c:138-211 | each event sends the oldest waiting head where the answer says: completed to the used ring, enqueued to the backend until it completes it, refused to nowhere |
| `VirtioEffects.RunFlows` | libsel4vmmplatsupport/src/drivers/virtio_net_emul.c:122-211 | over any run the rings with their wrapped indices do what a plain queue does, and the guest finds the heads handed back, in order, in the used ring |
| `VirtioEffects.NotifyFlows` | libsel4vmmplatsupport/src/drivers/virtio_net_emul.c:138-204 | one notification does that to the waiting heads, oldest first, one answer each |
| `ControlRegisters.Apply` | libsel4vm/src/arch/x86/processor/cr.c:24-30 | host bits under the mask, the guest value elsewhere |
| `ControlRegisters.StoreShows` | libsel4vm/src/arch/x86/processor/cr.c:106-126 | an accepted trapped write shows exactly what was written and keeps the bits of the host |
| `ControlRegisters.HandOverShows` | libsel4vm/src/arch/x86/processor/cr.c:43-54 | handing PSE and PAE over changes neither the visible CR4 nor the bits the host keeps |
| `ControlRegisters.SetCr0Shows` | libsel4vm/src/arch/x86/processor/cr.c:32-83 | a trapped write to CR0 is refused and changes nothing, or the guest sees exactly the value written while CR3 and CR4 look as before and the bits of the host hold |
| `ControlRegisters.SetCr3Shows` | libsel4vm/src/arch/x86/processor/cr.c:85-93 | a trapped write to CR3 shows exactly the value written and changes nothing else the guest sees |
| `ControlRegisters.SetCr4Shows` | libsel4vm/src/arch/x86/processor/cr.c:106-126 | a trapped write to CR4 shows exactly the value written, and the bits of the host hold, exactly if it sets no reserved bit; otherwise nothing changes |
| `ControlRegisters.PagingSeamless` | libsel4vm/src/arch/x86/processor/cr.c:40-61 | taking over paging leaves the visible CR3 and CR4 as they were and ends the watch on PSE, PAE and CR3 |
| `ControlRegisters.ExitsIff` | libsel4vm/src/arch/x86/boot.c:261-276 | with these masks and shadows a write traps exactly if it changes a watched bit of what the guest sees |
| `ControlRegisters.PagingStays` | libsel4vm/src/arch/x86/processor/cr.c:63-69 | the guest cannot switch paging off again |
| `ControlRegisters.RunTransparent` | libsel4vm/src/arch/x86/processor/cr.c:32-126 | over any sequence of trapped and untrapped accesses the guest sees exactly the registers of a machine that has no masks and shadows and stores every write that is not refused; host-owned bits have the values of the host throughout |
| `ControlRegisters.BootInv` | libsel4vm/src/arch/x86/boot.c:261-276 | a new vCPU satisfies the invariant and shows empty registers while protection and paging are on |
| `ControlRegisters.GuestCr.WriteCr0` | libsel4vm/src/arch/x86/processor/cr.c:32-83 | accepts exactly values without reserved bits that do not switch paging off; the guest then sees the value written, and a refusal changes nothing |
| `ControlRegisters.GuestCr.WriteCr3` | libsel4vm/src/arch/x86/processor/cr.c:85-93 | leaves the cached and, under paging, the real CR3 at `SetCr3` of the model; the guest sees the value written |
| `ControlRegisters.GuestCr.ReadCr3` | libsel4vm/src/arch/x86/processor/cr.c:95-104 | returns the CR3 the guest sees |
| `ControlRegisters.GuestCr.WriteCr4` | libsel4vm/src/arch/x86/processor/cr.c:106-126 | accepts exactly values without reserved bits; the guest then sees the value written and the bits of the host hold, and a refusal changes nothing |

## Left out

- Kernel calls (injecting into a list register, VMCS and context writes, mapping) are taken to succeed; only their effect on the bookkeeping is modelled.
- GIC: SGIR writes, sub-word register accesses, priority and target registers, interrupts 992 and above, ack callbacks that inject.
- x86: the acknowledge callbacks that ending an 8259 interrupt runs, INIT and SIPI, poll mode and re-initialisation of the 8259, destination matching of interprocessor interrupts, vectors and 8259 bases below 16, more than one vCPU.
- x86: an exception for an unsupported MSR while an injection is set up, which the source reports as fatal.
- x86: `vm_check_external_interrupt` compares the answer of the 8259 query, which is 0 or 1, with -1, so its test always passes; the model follows the code.
- DMA: `_node_size` (`dma.c:83-86`) shifts an int, which overflows for a node of 2 GiB or more, and sizes here are exact; `dma_plookup`, cache operations and access flags; list elements that are freed and reused have fresh identities.
- Memory for bookkeeping arrays is taken to be available, except for the split of a DMA region and for morecore.
- GuestRamRuns.RunKeeps: says nothing once a list is sorted on which the comparator of `qsort` is not exact; what `qsort` then does is undefined.
- GuestRam.RamList.Normalise: takes `qsort` as insertion sort; `GuestRamSafety.SortedUnique` shows that the algorithm does not matter.
- ReservationTree.Insert: does not model the balancing of the red-black tree; `ReservationTree.ShapeIrrelevant` shows that lookups do not depend on it.
- RamTouch.Write: does not model an address without any reservation, where the code passes a null pointer on, nor what the callback writes beyond the range and the buffer of the caller in the top-page case; an address that cannot be mapped stops the loop.
- AnonRegions.StepKeepsIff: does not model which of several anonymous regions is picked; it holds for any choice.
- Vchan: positions beyond 2^31, and setting up and closing a connection.
- VirtioPackets.StaleIrrelevantIff: is stated for reservations that pass the test of the library, since in a page that ends at 2^64 a read copies the part and more.
- VirtioRing.VirtQueue.NotifyNetTx: does not model what becomes of the rings after a completion inside the call of the backend; `VirtioRing.NestedTakesAgain` says what goes wrong.
- Virtio: receive paths, the console and block devices, cyclic descriptor chains, and the length field the socket device patches into a truncated packet.
- Virtio: failed reads of the rings and descriptors themselves, and the release of a buffer whose packet was refused.
- Control registers of 64-bit guests, `clts` and `lmsw` exits, which are refused.
- ACPI, BGA, keyboard, image loading, instruction decoding, CPUID and MSR filtering, SMC and PSCI, RPC: input and output or single-branch facts.
