# cotm32: core and kernel

A verification model of the cotm32 RISC-V core and of the small preemptive kernel that boots on it.

* **The core** (`Isa`, `Csr`, `Memory`, `Core`, `Sequential`, `Refinement`, `Runs`). The five-stage pipeline is a
  clock-step function `Core.Clock` over the fetch pc, the four latches, register file, data memory, CSRs, privilege,
  multiply/divide unit and sleep flag. It is compared with `Sequential.Step`, a machine that completes one instruction
  at a time and is built from the same decode, execute and memory functions. Architectural state is what `Refinement.Abs`
  reads out of the pipeline: the pc of the oldest valid slot, and the register file with the pending write applied.
  In these theorems ROM contents, immediate extender, ALU, comparisons and multiply/divide arithmetic are arbitrary
  functions; outputs the control unit leaves unassigned are a fresh arbitrary value in every cycle.
* **What an observer sees** (`Observation`): over every run, WFI and left-over multiply/divide runs included, the exact
  condition for a cycle to be a step or a stutter of the sequential machine.
* **The control unit** (`ControlUnit`) is concrete and meets the contract the pipeline theorems assume of it.
* **The instruction set** (`Bits`, `Instructions`, `Datapath`, `Decoding`, `Legality`, `Conformance`). `Instructions` has
  RV32IM, Zicsr and the system instructions as a datatype, encoded from the field layout. Decoding undoes the encoding,
  and the words the core accepts are exactly the encodings and one family more. With the ALU, extender and comparisons of
  the core, `Conformance` says of each instruction what one step does to pc, registers, memory bytes, CSR bits and devices,
  and which trap it takes when it cannot be done, in the terms of the instruction set.
* **Traps of the core and the kernel's handler** (`Causes`, `Handover`): which trap is taken, what mcause and mtval then
  hold, and which arm of the trap handler that word leads to; and the timer as stores and loads of the core reach it.
* **Where the core does not refine** (`Collision`, `Sleep`). `Collision` is a run from reset in which a trap squashes a
  multiplication in its first EX cycle and the handler's first jump is lost. `Sleep` says what WFI does instead.
* **The clocked units as objects** (`Rtl`): every register of the core is a field, every `Clock` method one rising edge;
  `ProcessorCore.Tick` is proved to be `Core.Clock`.
* **Multiply/divide** (`MulDiv`) and **timer** (`Clint`): exact arithmetic, the latched run, the torn-read-safe read, and
  the deadline in two halves.
* **The heap** (`HeapList`, `KernelHeap`): the block list and its laws, and `heap.c` itself, in 32-bit arithmetic, on
  word-addressed memory with the list threaded through block headers.
* **Tasks** (`TaskTable`), with every task's own heap nested in one of its two blocks, **ready queue** (`ReadyQueue`),
  **scheduler** (`Scheduler`), **traps and system calls** (`Traps`), **boot** (`Boot`), and the schedule as a rota
  (`Rotas`): the kernel's state as objects whose methods are proved against values, plus laws over whole runs of traps,
  for tasks of any priorities and user code that may write to any memory its task owns.

What the code does not do, and where exactly the line runs:

* A cycle of the core is a step or a stutter of the sequential machine exactly if `Observation.Deviates` does not hold
  of it (`Observation.RunShowsExactly`). Awake it deviates if an instruction held in EX by the run of a squashed multiply or
  divide is flushed there, or if the wrong result of such a run commits. `mu.sv` has no flush input, so such runs exist;
  `Collision.LostJump` is one. A WFI shows in the cycle after it completes at the earliest, and not at all while the core
  sleeps over an empty MEM slot and EX is not flushed: it is then in step, and stuck.
* `MULHSU` is computed as `MULHU` (`MulDiv.MulhsuExact` says for which operands that is right).
* The target of a `jalr` keeps its bit 0 (`Conformance.JumpSteps`), and a `jalr` word with any function code is accepted
  (`Legality.LegalExactly`).
* The timer advances every 101 clocks, not every 100 (`Clint.CounterPeriod`).
* Task ids repeat after 65536 creations, failed ones included (`TaskTable.SameIdExactly`); up to then they are new
  (`TaskTable.Table.PerformAll`).
* `alloc_heap` is exact first fit for every request below 2^32 - 31. Above, the sum with `total_allocated` can wrap past
  the first test: `malloc(2^32 - 15)` then answers a block of no bytes, and a request that rounds up to 2^32 - 16 makes a
  block its own successor (`KernelHeap.FirstFitExactly`, `KernelHeap.HugeRequestServed`, `KernelHeap.SelfLinkEndsHeap`).
* Only `schedule` writes mie, and `start_schedule` does not call it: after boot no interrupt is enabled
  (`Boot.KernelMain`), and the timer stays off until the first task gives way of its own accord (`Traps.EnabledAlong`).
* A task can panic the kernel by freeing a block twice (`Traps.SecondFreePanics`).
* `push_ready_task` in front of a nonempty queue leaves the old head's `prev` link unset, and `remove_ready_task` needs
  that link (`ReadyQueue.Queue.Push`, `ReadyQueue.RemovalIsExact`). For `schedule` this matters in one case only: the
  current task is RUNNING, the queue is not empty, and the task's priority is above that of the queue's head. Then, and
  only then, the head that now runs stays in the queue behind the task it took over from, and every other ready task is
  lost (`Scheduler.Kernel.Schedule`). A wake-up in front does no harm, because only the head is removed afterwards.
  The model calls such a switch DISORDERED and stops there; up to it, all results over runs hold for any priorities.
  Tasks of equal priority never meet it (`Traps.EqualsTakeTurns`). The priorities the kernel boots with, 0 and 50, meet
  it at the user task's first yield or the end of its first slice (`Boot.FirstYield`).

`dafny verify dfyconfig.toml` checks the whole project.

## Model

| member | source | states |
|---|---|---|
| Observation.RunShowsExactly | rtl/cpu/processor_core.sv:263-288 | Over every run from reset, any program, interrupts and device answers, WFI included: every one of the first n cycles is one sequential step (valid EX/MEM) or a stutter (any other cycle), in state and device requests, iff none of them deviates. |
| Observation.CycleShowsExactly | rtl/cpu/pipeline/hazard_unit.sv:71-98 | The exact condition for one cycle, awake or asleep, from any state of the invariant, and that the invariant lasts while it holds. |
| Observation.WrongResultFirstShows | rtl/cpu/core/mu.sv:75-92 | The wrong result of a left-over run does not show in the cycle it leaves EX, and shows in the next iff that slot takes no trap. |
| Observation.SleepFirstShows | rtl/cpu/priv/wfi.sv:13-21 | A WFI does not show in the cycle it completes; in the next it shows, over an empty MEM slot, iff EX is flushed, and over a slot that takes no trap iff that slot changes a register or has another successor. |
| Observation.StuckButInStep | rtl/cpu/processor_core.sv:263-270 | A core asleep over an empty MEM slot stays in step with a sequential machine that no longer moves, for as long as EX is not flushed. |
| Observation.WrongCommits | rtl/cpu/core/mu.sv:32-34 | A wrong result in MEM with no trap writes a register the sequential machine writes otherwise. |
| Observation.TrapShows | rtl/cpu/processor_core.sv:733-747 | A trap is taken as the sequential machine takes it, even asleep and even with a wrong result in the slot. |
| Runs.RunRefines | rtl/cpu/processor_core.sv:733-787 | n cycles from reset in which no WFI completes and EX collides with no left-over run leave the architectural state where the sequential machine is, and the pipeline invariant holds. |
| Runs.UncutRunRefines | rtl/cpu/core/mu.sv:75-92 | With M instructions and their multi-cycle EX lock: if no trap or return is taken in the cycle an M instruction first occupies EX, only WFI can break the refinement. |
| Runs.NoMulDivRunRefines | rtl/cpu/pipeline/hazard_unit.sv:39-98 | For a program with no M instruction, any run without WFI refines the sequential machine. |
| Refinement.ClockShowsExactly | rtl/cpu/pipeline/hazard_unit.sv:71-98 | One clock from any state satisfying the invariant: state and device requests are those of a step or a stutter iff no instruction is lost in EX to a left-over run. |
| Refinement.InvStep | rtl/cpu/pipeline/idex_reg.sv:44-75 | One clean clock keeps the pipeline invariant over all latches, operands and the multiply/divide unit. |
| Refinement.ValidCycleIsStep | rtl/cpu/processor_core.sv:610-690 | A clean cycle with a valid EX/MEM slot performs exactly one execute, trap or return of the sequential machine, device requests included. |
| Refinement.InvalidCycleIsStutter | rtl/cpu/processor_core.sv:701-747 | A clean cycle with an invalid slot changes nothing but the sampled interrupt lines and asks nothing of the devices. |
| Refinement.LostShows | rtl/cpu/pipeline/hazard_unit.sv:79-97 | An instruction flushed while a left-over run holds it in EX is missing from the architectural state at once. |
| Refinement.ForwardedOperands | rtl/cpu/pipeline/fwd_unit.sv:24-68 | The forwarding muxes deliver each named register's value after the instruction in MEM, whichever source is chosen. |
| Refinement.MuStartsOnCurrentOperands | rtl/cpu/core/mu.sv:81-85 | The operands the unit samples at its start are the registers after everything older. |
| Refinement.MuKeepsOperands | rtl/cpu/pipeline/hazard_unit.sv:92-97 | While the unit counts, the instruction stays in EX and older ones drain without touching its operands. |
| Refinement.MemStageAgrees | rtl/cpu/processor_core.sv:608-757 | MEM treats alike any two slots that agree on the signals an instruction uses: trap, CSRs, privilege, memory, devices and written value are the same. |
| Refinement.ExecuteAgrees | rtl/cpu/processor_core.sv:280-288 | A decoded slot executed on current operands agrees with the sequential machine's slot and leads to the same successor pc. |
| Runs.OperandsAreCurrent | rtl/cpu/processor_core.sv:392-402 | Every operand the instruction in EX uses is the register's value once all older instructions have completed; for an M instruction, the latched pair is. |
| Runs.TrapsArePrecise | rtl/cpu/processor_core.sv:267-269 | At a trap at pc p everything older is done, nothing at or after p has touched registers, memory, other CSRs or device writes; mepc is p, mcause holds a cause the slot raises and mtval its value, execution goes on at the base of mtvec, all latches are empty, and a branch taken in EX in the same cycle is dropped. |
| Causes.CauseExactly | rtl/cpu/priv/exception_dispatch.sv:35-81 | By cause, with everything that keeps it from being taken: a slot traps iff it raises some cause, it raises one only, and mcause, mtval, mepc and the mstatus stack then hold that cause, its value, its pc and what was interrupted; exceptions come before interrupts, external before software before timer. |
| Runs.ReturnUndoesTrap | rtl/cpu/priv/csr_file.sv:89-114 | A return, any number of cycles after a trap, with no other trap or return and no write to mstatus or mepc in between, goes back to the trapped pc with its privilege and interrupt enable; no interrupt is selected in any of those cycles. |
| Runs.HandlerKeepsState | rtl/cpu/priv/csr_file.sv:90-101 | From the trap on, in every such cycle the saved pc, privilege and enable bit are in place and interrupts are masked. |
| Runs.SlotsFollowProgramOrder | rtl/cpu/core/inst_fetch.sv:57-74 | Valid slots in MEM, EX, ID and the fetch pc lie on one sequential path up to an unresolved branch, trap or return. |
| Runs.BubblesAreInert | rtl/cpu/pipeline/hazard_unit.sv:79-97 | An invalid slot writes nothing, starts nothing, branches nowhere and never traps. |
| Runs.DistanceDecreases | rtl/cpu/core/mu.sv:86-91 | The distance of the oldest instruction from MEM shrinks in every clean cycle in which MEM is empty. |
| Runs.AlwaysProgresses | rtl/cpu/core/mu.sv:19-20 | From every reachable state an instruction reaches MEM within 15 cycles, or 27 while a left-over run counts down. |
| Collision.LostJump | rtl/cpu/core/mu.sv:75-92 | A concrete run from reset: in step for nine cycles, then a squashed multiplication makes the core skip a jump that the sequential machine still has before it. |
| Collision.TrapCutsMul | rtl/cpu/processor_core.sv:267-269 | A trap that flushes a multiplication in its first EX cycle leaves the unit busy with four clocks to go. |
| Collision.JalIsLost | rtl/cpu/pipeline/hazard_unit.sv:86-97 | A jump held in EX by a left-over run is flushed by its own redirect and never reaches MEM. |
| Sleep.FallsAsleep | rtl/cpu/priv/wfi.sv:13-21 | After a WFI completes, MEM holds whatever EX handed over: a bubble, a slot that will be lost, or a slot that stays. |
| Sleep.NeverWakes | rtl/cpu/priv/wfi.sv:18-20 | A core asleep over a bubble, or over a faulting, returning or M-followed slot with nothing pending, never wakes, whatever arrives. |
| Sleep.SleepsUntilPending | rtl/cpu/processor_core.sv:263-270 | Over any other slot it sleeps exactly until an enabled interrupt is pending, repeats that slot's device request each cycle, writes no register, and traps with that slot's pc. |
| ControlUnit.UnassignedOutputsNeverMatter | rtl/cpu/core/cu.sv:53-297 | For every word, privilege and any values of the unassigned outputs, the decoded instruction acts the same and is single-purpose. |
| ControlUnit.DecodeMeetsContract | rtl/cpu/core/cu.sv:70-297 | The control unit satisfies everything the pipeline theorems ask of one: unassigned outputs never matter, each word has one purpose, the flush word is inert. What each instruction decodes to is the row of Decoding.DecodesBack. |
| Instructions.KnownRegisterWords | rtl/cotm32_pkg.sv:134-212 | Register, multiply and immediate instructions have the words an assembler gives them; so have the other formats, in the lemmas beside it. |
| Decoding.DecodesBack | rtl/cpu/core/cu.sv:70-298 | The word of every instruction decodes to its own signals in every privilege: operation, operands, destination and its source, memory, jump, CSR and system signals on exactly for the instructions they belong to. |
| Decoding.ImmediateBack | rtl/cpu/core/sign_ext.sv:14-23 | The extender gives back the immediate of every instruction, sign and scattered bits included. |
| Legality.LegalExactly | rtl/cpu/core/cu.sv:70-433 | In machine mode a word is accepted iff it encodes an instruction or is a jalr with a function code. |
| Datapath.AluNumbers | rtl/cpu/core/alu.sv:16-17 | Sums are right modulo 2^32 under both readings, and addition and subtraction undo each other. |
| Datapath.AluOrder | rtl/cpu/core/alu.sv:21-22 | The unsigned comparison orders words, and the signed one is the unsigned one of words moved by half the range. |
| Datapath.AluBits | rtl/cpu/core/alu.sv:18-25 | Digit by digit what the logical operations and the three shifts give. |
| Conformance.ComputeSteps | rtl/cpu/processor_core.sv:130-143 | A register, immediate, multiply/divide or upper-immediate instruction puts its result into rd, goes on behind itself, and changes nothing else. |
| Conformance.BranchSteps | rtl/cpu/core/bu.sv:15-29 | Each of the six conditional branches goes to its target iff its operands are equal, unequal, or ordered as its name says, signed or unsigned. |
| Conformance.JumpSteps | rtl/cpu/core/cu.sv:102-119 | jal and jalr go to their targets and put the address behind them into rd; bit 0 of a jalr target is kept. |
| Conformance.LoadSteps | rtl/cpu/core/lsu.sv:51-104 | A load that raises no fault puts into rd, sign- or zero-extended, the bytes of data memory at its address, or the word of the ROM, timer or terminal there. |
| Conformance.StoreSteps | rtl/cpu/core/lsu.sv:51-134 | A store that raises no fault changes exactly the bytes of data memory at its address to those of its operand, and no register. |
| Conformance.DeviceRequests | rtl/cpu/core/lsu.sv:45-68 | A store to the timer or terminal, and a load from the terminal, is a request for that device alone, with the address in it and the bytes moved. |
| Conformance.CsrSteps | rtl/cpu/priv/csr_file.sv:70-119 | In machine mode rd gets the old word of the CSR, every bit of it is exchanged, set or cleared by the operand's, and no other CSR but mip changes; for mip see Core.WrittenCsrReadsBack. |
| Conformance.CsrBits | rtl/cpu/priv/csr_file.sv:70-77 | Bit by bit what CSRRW, CSRRS and CSRRC write. |
| Conformance.ReturnSteps | rtl/cpu/priv/csr_file.sv:98-101 | mret goes to mepc with the saved privilege and enable bit, and empties the stack of mstatus. |
| Conformance.NothingSteps | rtl/cpu/core/cu.sv:216-235 | A fence, and a WFI in machine mode, go on and change nothing. |
| Conformance.FaultSteps | rtl/cpu/priv/exception_dispatch.sv:35-81 | An instruction that its privilege forbids, whose pc is misaligned, that is an ecall or ebreak, or whose address is forbidden or misaligned takes exactly that trap, with its cause and value, undone, whatever interrupts wait. |
| Conformance.InterruptSteps | rtl/cpu/priv/interrupt_dispatch.sv:24-42 | One that raises no exception takes the first enabled and pending interrupt: external, software, timer. |
| Conformance.FetchFaultSteps | rtl/cpu/core/inst_fetch.sv:83-88 | Beyond the ROM every step is an access fault at pc. |
| Conformance.PipelineSteps | rtl/cpu/processor_core.sv:263-288 | In clean runs of the pipeline with these units each cycle with a valid slot in MEM is such a step, and any other changes nothing but the sampled interrupt lines. |
| ControlUnit.NopIsInert | rtl/cpu/pipeline/ifid_reg.sv:30-46 | The word a flushed latch holds decodes to an instruction with no effect but a write to x0. |
| Core.WrittenCsrReadsBack | rtl/cpu/priv/csr_file.sv:79-117 | An accessible CSR written by a slot in MEM reads back as the word written, iff it is not mip or the word agrees with the interrupt lines sampled in the same edge; no other CSR but mip changes. |
| CsrUnit.WriteThenRead | rtl/cpu/priv/csr_file.sv:44-53 | The packed fields of every CSR lose and move no bit of a written word. |
| CsrUnit.BitPositions | rtl/cotm32_priv_pkg.sv:72-114 | In mstatus MIE is bit 3, MPIE bit 7 and MPP bits 12 and 11; in mie and mip the software, timer and external bits are 3, 7 and 11. |
| Memory.LoadUndoesStore | rtl/cpu/core/lsu.sv:95-134 | A load of a store's width from the same place returns the stored value, zero- or sign-extended by the load's kind; where an address leads is Conformance.StoreSteps and Conformance.LoadSteps. |
| Memory.StoreBytesAt | rtl/cpu/core/data_mem.sv:34-43 | The write strobes change exactly the bytes of the access, to the bytes of the data word. |
| Rtl.ProcessorCore.Tick | rtl/cpu/processor_core.sv:290-847 | One rising edge of all unit objects, fed with the wires `Comb` computes from the old state, is the clock function of the pipeline theorems, or the reset state: the clocked units and latches are checked here, the wiring between them is `Comb` itself. |
| Rtl.ProcessorCore.ClockDatapath | rtl/cpu/processor_core.sv:309-620 | Fetch, all four latches, register file and data memory after the edge, each from the old state. |
| Rtl.ProcessorCore.ClockFront | rtl/cpu/processor_core.sv:309-450 | Fetch pc, IF/ID and ID/EX after the edge, stalls and flushes composed. |
| Rtl.ProcessorCore.ClockBack | rtl/cpu/processor_core.sv:608-812 | EX/MEM, MEM/WB, register file and data memory after the edge. |
| Rtl.ProcessorCore.ClockControl | rtl/cpu/processor_core.sv:662-767 | CSRs, privilege, multiply/divide unit and sleep after the edge. |
| Rtl.RegisterFile.Read | rtl/cpu/core/register_file.sv:24-42 | The write-through read port returns what the register holds after the pending write; x0 reads zero. |
| Rtl.RegisterFile.Clock | rtl/cpu/core/register_file.sv:44-52 | At most one register changes, never x0. |
| Rtl.DataMem.Clock | rtl/cpu/core/data_mem.sv:34-43 | The clocked byte loop stores exactly the strobed bytes. |
| Rtl.CsrFile.Clock | rtl/cpu/priv/csr_file.sv:79-119 | Trap entry before return before write; the pending bits are sampled last. |
| Rtl.MulDivUnit.Clock | rtl/cpu/core/mu.sv:75-92 | Start, count and release of the unit. |
| MulDiv.SignedDivision | rtl/cpu/core/mu.sv:41-58 | For all operands of DIV and REM: b * quotient + remainder is a modulo 2^32; for a nonzero divisor the remainder is smaller than it and zero or of the dividend's sign, and the identity is exact over signed values except for the one overflowing pair; section 7.2 of the RISC-V Unprivileged ISA 20191213. |
| MulDiv.RegularDivision | rtl/cpu/core/mu.sv:108-111 | Outside the special cases, what the truncating operators give when read back as words. |
| MulDiv.UnsignedDivision | rtl/cpu/core/mu.sv:59-70 | DIVU and REMU are exact quotient and remainder; all ones and the dividend for a zero divisor. |
| MulDiv.MultiplyHalves | rtl/cpu/core/mu.sv:113-118 | High and low halves recombine to the full signed and unsigned products; MUL is the low half of both. |
| MulDiv.MulhsuExact | rtl/cpu/core/mu.sv:106-118 | MULHSU equals MULHU, and equals the ISA's definition iff the signed operand is not negative or the other is zero. |
| MulDiv.LatchedRun | rtl/cpu/core/mu.sv:32-92 | Operands are those of the start cycle; done is high in exactly one cycle, 4 or 12 later, and the unit is idle in the next. |
| MulDiv.DeliversSampled | rtl/cpu/core/mu.sv:127-133 | What is delivered depends only on the operands sampled at the start, whatever the inputs do meanwhile. |
| Clint.CounterPeriod | rtl/peripheral/clint.sv:76-81 | mtime after n clocks in closed form; its period is 101 clocks. |
| Clint.ReadsAgree | sw/bootc/clint.h:35-44 | Equal high words around a low-word read pin down the 64-bit counter at that read, if fewer than 2^32 advances lie between, even across a wrap. |
| Clint.RetryAgrees | sw/bootc/clint.h:38-41 | An attempt after one that saw the high word move does not see it move again. |
| Clint.Bus.GetTime | sw/bootc/clint.h:35-44 | If two attempts take fewer than 2^32 advances, the loop makes at most two and returns the exact value mtime had at its last low-word read, whatever clocks the reads happen at. |
| Clint.Bus.ReadThree | sw/bootc/clint.h:38-41 | One attempt reads high, low and high word of the running clock, each at its own clock. |
| Clint.Bus.Tick | rtl/peripheral/clint.sv:48-83 | One edge of the timer's registers is the clock function that WrittenReadsBack, CounterPeriod and LineRises describe. |
| Clint.WrittenReadsBack | rtl/peripheral/clint.sv:55-83 | A written word reads back and leaves the other registers alone, of msip one bit; a write to mtime in the clock of an advance is lost. |
| Clint.LineRises | rtl/peripheral/clint.sv:39-39 | n clocks on, the interrupt line is up iff mtime, in closed form, has reached the comparator. |
| Clint.Bus.SetTimecmp | sw/bootc/clint.h:25-31 | Whatever clocks lie between the two stores, the timer is afterwards the one before, some clocks later, with the deadline; in between its comparator is the half-written one. |
| Clint.Bus.GetTimecmp | sw/bootc/clint.h:16-21 | Whatever clocks lie between the two loads, the result is the deadline, and the timer has only gone on. |
| Clint.NoSpuriousTick | sw/bootc/clint.h:25-31 | The high-then-low write of mtimecmp raises no interrupt that neither deadline raises, iff the high word does not shrink or the low word does not grow. |
| Clint.AdvancingDeadlineIsSafe | sw/bootc/trap_handler.c:22-29 | The handler's next deadline never causes a spurious tick. |
| HeapList.RunWf | sw/bootc/kernel/heap.c:60-112 | Over every sequence of legal calls, where alloc_heap is exact first fit, the blocks tile the heap exactly, sizes are multiples of 16, no two neighbours are free, the last block is free, and allocated plus free bytes are the heap's size. |
| HeapList.FreeingAllRestores | sw/bootc/kernel/heap.c:98-112 | From every reachable heap, freeing the live blocks in any order is legal and leaves exactly what init_heap made. |
| HeapList.ReleaseUndoesCarve | sw/bootc/kernel/heap.c:38-58 | Freeing the block just allocated restores the exact previous list. |
| HeapList.FirstFit | sw/bootc/kernel/heap.c:86-95 | The lowest-address free block of size at least the rounded request plus 20, or none exists. |
| HeapList.EarlyRejectIsSafe | sw/bootc/kernel/heap.c:84-84 | If any block can serve a request, the running-total test lets it pass. |
| HeapList.Conservation | sw/bootc/kernel/heap.c:60-66 | Headers and sizes of allocated and free blocks add up to the heap. |
| HeapList.CarveWf | sw/bootc/kernel/heap.c:83-96 | A successful allocation keeps the list well-formed. |
| HeapList.CarveBytes | sw/bootc/kernel/heap.c:90-90 | It adds 16 plus the rounded request to the allocated bytes. |
| HeapList.ReleaseWf | sw/bootc/kernel/heap.c:98-112 | Freeing an allocated block keeps the list well-formed, no two free neighbours included. |
| HeapList.ReleaseFuses | sw/bootc/kernel/heap.c:38-58 | Two-sided merging is one replacement of the block and its free neighbours by one free block over the same bytes. |
| HeapList.ReleaseBytes | sw/bootc/kernel/heap.c:110-110 | Freeing takes 16 plus the block's size off the allocated bytes. |
| HeapList.NothingUsedIsInitial | sw/bootc/kernel/heap.c:60-74 | A well-formed heap with nothing allocated is the single block of init_heap. |
| HeapList.CarveLive | sw/bootc/kernel/heap.c:88-92 | Allocation adds exactly one live pointer. |
| HeapList.ReleaseLive | sw/bootc/kernel/heap.c:104-111 | Freeing removes exactly that pointer. |
| HeapList.PayloadsSeparate | sw/bootc/kernel/heap.c:83-96 | Payloads of different allocated blocks do not overlap. |
| HeapList.PayloadsValid | sw/bootc/kernel/heap.c:76-81 | Every live pointer is 16-aligned, accepted by is_valid_heap_ptr, and its payload lies in the heap. |
| HeapList.AcceptedExactly | sw/bootc/kernel/heap.c:76-81 | The pointer check accepts exactly aligned addresses from the first payload to 16 bytes before the end. |
| HeapList.RoomForOneMore | sw/bootc/kernel/task.c:41-51 | If only 1024-byte blocks are handed out and at most 15 are out, 32 KiB always serve one more, however fragmented. |
| KernelHeap.Heap.Alloc | sw/bootc/kernel/heap.c:83-96 | For every 32-bit request: NULL iff the test or the search refuses it, otherwise the payload of the first block the search takes, with list, headers and total carved and no byte of another live payload or outside the heap changed; for the one rounded request that wraps with the header, the block is its own successor. |
| KernelHeap.FirstFitExactly | sw/bootc/kernel/heap.c:84-90 | alloc_heap is exact first fit iff not: the request is within 31 of 2^32, its sum with total_allocated reaches 2^32, and some free block has 16 bytes (32 from 2^32 - 15 on). |
| KernelHeap.HugeRequestServed | sw/bootc/kernel/heap.c:84-88 | With something allocated and a free block of 20 bytes, a request of 2^32 - 15 bytes is answered by a block of none. |
| KernelHeap.SelfLinkEndsHeap | sw/bootc/kernel/heap.c:21-33 | Once a block is its own successor, memory holds no block list. |
| KernelHeap.ReachesBlocks | sw/bootc/kernel/heap.c:86-94 | Following next from a block reaches exactly the blocks behind it. |
| KernelHeap.Heap.Free | sw/bootc/kernel/heap.c:98-112 | Which of the two panics, the invalid pointer exactly outside the heap's aligned payload range, or the merged list with headers, links and total; no byte of another payload changes, and refused calls change nothing. |
| KernelHeap.Heap.constructor | sw/bootc/kernel/heap.c:60-74 | init_heap rounds both ends up and writes one free block; nothing else in memory changes. |
| KernelHeap.Heap.SplitBlock | sw/bootc/kernel/heap.c:16-36 | Succeeds iff the 32-bit test passes, and then has always split: the success path without a split is dead under the alignment invariant. |
| KernelHeap.Heap.MergeAdjacent | sw/bootc/kernel/heap.c:38-58 | Memory after merging holds the coalesced list, prev and next inverse; only header words change. |
| KernelHeap.Heap.MergeBack | sw/bootc/kernel/heap.c:42-49 | The backward half, and where it leaves the cursor. |
| KernelHeap.Heap.MergeForward | sw/bootc/kernel/heap.c:51-57 | The forward half. |
| KernelHeap.Heap.Search | sw/bootc/kernel/heap.c:86-95 | The loop takes the first block that passes the test, or none. |
| KernelHeap.Heap.TryBlock | sw/bootc/kernel/heap.c:88-92 | One iteration of the search takes the block iff it is free and fits. |
| KernelHeap.Heap.FreeBlock | sw/bootc/kernel/heap.c:104-111 | The part of free_heap past its checks. |
| KernelHeap.SplitRep | sw/bootc/kernel/heap.c:19-34 | The stores of a split turn the header words of one list into those of the split list. |
| KernelHeap.AbsorbRep | sw/bootc/kernel/heap.c:42-57 | The stores of a merge turn the header words of one list into those of the merged list. |
| KernelHeap.HeadersKeepPayloads | sw/bootc/kernel/heap.c:9-14 | A change confined to headers keeps every payload both lists have and everything outside the heap. |
| KernelHeap.PayloadWritesKeepRep | sw/bootc/kernel/heap.c:9-14 | Whatever the owner of a payload writes there, the heap around it stays in place. |
| TaskTable.NestedKept | sw/bootc/kernel/task.c:41-55 | Operations on the global heap leave every task's own heap in place. |
| TaskTable.OwnHeapWrites | sw/bootc/kernel/task.c:55-55 | Writes inside one task's heap reach no other task's heap and no header of the global one. |
| TaskTable.OwnHeapBytes | sw/bootc/kernel/task.c:55-55 | Writes inside one task's heap block change no byte of another task's blocks, nor of its own stack. |
| TaskTable.OwnWritesKeepAll | sw/bootc/kernel/task.c:44-55 | A task that writes only its stack and the payloads it holds leaves the global heap, its own and every other task's in place. |
| TaskTable.Table.TaskAlloc | sw/bootc/sys/ksys.c:32-40 | malloc on a task's own heap: first-fit answer and list; no byte of another task's stack or heap, of its own stack or of a payload it holds changes, and the global heap and all else in the table stay. |
| TaskTable.Table.TaskFree | sw/bootc/sys/ksys.c:24-30 | free on a task's own heap: which panic, or the merged list; no byte of another task's stack or heap, of its own stack or of any other payload it holds changes, and all else stays. |
| TaskTable.Table.TaskStore | sw/bootc/kernel/task.c:44-55 | A store is the task's own iff it goes to its stack or to a payload it holds, as its heap's headers tell; such a store keeps every invariant and every byte of every other task's blocks. |
| TaskTable.Table.CreateTask | sw/bootc/kernel/task.c:23-71 | The new task takes the first free slot, owns two fresh blocks and starts with its stack pointer, entry and slice; a failure leaves the heap's list as it was; either way no byte of an existing task's stack or heap changes; with a 32 KiB heap it fails only when all slots are taken. |
| TaskTable.Table.DestroyTask | sw/bootc/kernel/task.c:108-120 | Exactly the task's two blocks are given back and its slot emptied, with every byte of every other task's stack and heap kept; a stale or unknown id changes nothing, memory included. |
| TaskTable.Table.AllocPair | sw/bootc/kernel/task.c:41-51 | Both blocks or neither: a failing second allocation restores the exact heap. |
| TaskTable.Table.InstallTask | sw/bootc/kernel/task.c:53-69 | Fills a slot; ownership and the total of 2080 bytes per task are kept. |
| TaskTable.Table.InitNested | sw/bootc/kernel/task.c:55-55 | The nested heap spans exactly its block and setting it up leaves the global heap in place. |
| TaskTable.Table.PickSlot | sw/bootc/kernel/task.c:24-38 | The first empty slot gets the next id and the generation goes on by one; no created task changes. |
| TaskTable.Table.PerformAll | sw/bootc/kernel/task.c:37-37 | Over any creations, failed ones included, and destructions, 65536 creations at most: every id given out is greater than all before it and than those of the tasks there were, and a destroyed id names no created task again. |
| TaskTable.SameIdExactly | sw/bootc/kernel/task.h:22-22 | Two creations give the same id iff they fill the same slot and a multiple of 65536 lies between them. |
| TaskTable.Table.InitialContext | sw/bootc/kernel/task.c:61-67 | All registers zero but the stack pointer at the top of the stack. |
| TaskTable.Table.Find | sw/bootc/kernel/task.c:14-21 | The slot found holds the very id asked for. |
| TaskTable.OwnsTwoBlocks | sw/bootc/kernel/task.c:44-55 | Every created task owns exactly two distinct live 1024-byte blocks, and its own heap is one of them. |
| TaskTable.OwnersDisjoint | sw/bootc/kernel/task.c:44-55 | No two tasks share a block. |
| TaskTable.TasksApart | sw/bootc/kernel/task.c:44-55 | The stack and heap of one task share no address with those of another. |
| TaskTable.Table.ForeignPointer | sw/bootc/kernel/heap.c:76-81 | A pointer into another task's stack or heap never passes the check of one's own heap. |
| TaskTable.NothingElseAllocated | sw/bootc/kernel/task.c:108-120 | Every live global block belongs to a created task, and total_allocated is 2080 for each. |
| ReadyQueue.PositionIsStable | sw/bootc/kernel/scheduler.c:51-60 | A push goes behind every task of its own or higher priority and before every lower one. |
| ReadyQueue.InsertKeepsSorted | sw/bootc/kernel/scheduler.c:30-71 | A push keeps a sorted queue sorted by non-increasing priority. |
| ReadyQueue.EqualPrioritiesAreFifo | sw/bootc/kernel/scheduler.h:16-18 | With equal priorities a push appends. |
| ReadyQueue.Queue.Push | sw/bootc/kernel/scheduler.c:30-71 | On any forward chain: stable insertion, or refusal of a full queue; the backward chain survives iff the push is not in front of a nonempty queue, and every prev link stays right or unset in any case. |
| ReadyQueue.Queue.FindPlace | sw/bootc/kernel/scheduler.c:41-60 | The search loop stops at the place of the specification. |
| ReadyQueue.Queue.Remove | sw/bootc/kernel/scheduler.c:73-90 | On a queue whose prev links are right or unset: with the entry's link right, exactly it goes and all links stay so; with it unset though something stands before, the entry stays as the last one, and what was behind it is lost. |
| ReadyQueue.RemovalIsExact | sw/bootc/kernel/scheduler.c:76-84 | On a correct forward chain removal takes the entry out iff its prev link is right. |
| ReadyQueue.RemovalTruncates | sw/bootc/kernel/scheduler.c:76-84 | Removed from behind the head with no prev link, an entry stays linked, and the chain now ends at it. |
| ReadyQueue.FrontLinks | sw/bootc/kernel/scheduler.c:36-39 | Linking in front keeps the forward chain, and the backward one only for an empty queue. |
| ReadyQueue.BehindKeepsChains | sw/bootc/kernel/scheduler.c:62-67 | Linking behind an entry keeps both chains. |
| Traps.Handler.RunTraps | sw/bootc/trap_handler.c:11-60 | Any number of traps with any mcause words, tasks of any priorities, any user code between the traps with any stores to its own task's stack and payloads: each trap that resumes has the whole effect of its call or interrupt from the state it found, and no other; a run that stops does so at a trap whose state panics, is undefined or puts the queue in disorder, or because user code writes elsewhere. |
| Traps.Handler.HandleTrap | sw/bootc/trap_handler.c:15-59 | One trap, told from the word of mcause as the handler's switch tells it: its exact outcome, and after one that resumes the schedule, the caller's context, output and heap, everyone else's contexts and heaps, every id, priority, stack base, state and slice, every byte of everyone's stack and held payloads, who waits, what is enabled, the queue's links, and the timer deadline. |
| Handover.SlotReachesHandler | sw/bootc/trap_handler.c:15-59 | After any trap of the core the word in mcause is handled as a system call iff the slot is a well-fetched ecall, as the interrupt that is first due iff it has no fault, and as a panic otherwise. |
| Handover.EcallReachesDispatch | sw/bootc/trap_handler.c:52-56 | An ecall from user or machine mode reaches the dispatcher with its own pc in mepc. |
| Handover.TimerReachesHandler | sw/bootc/trap_handler.c:15-29 | A timer interrupt that is due, with none before it, reaches the timer arm at any instruction without a fault, which is left undone. |
| Handover.OthersPanic | sw/bootc/trap_handler.c:37-58 | Every other exception leads to a panic. |
| Handover.StoresReachTimer | sw/bootc/clint.h:8-9 | A word stored to 0x02004000 or 0x02004004 replaces that half of the comparator, and no other store changes it. |
| Handover.LoadsSeeTimer | sw/bootc/clint.h:8-12 | A word loaded from the four timer addresses is that half of mtime or of the comparator. |
| Traps.Handler.HandleInterrupt | sw/bootc/trap_handler.c:15-36 | Never panics: wakes exactly the waiters, in slot order, each at its place by priority; takes one off the slice on the timer; yields iff the slice is used up or someone woke; refills a used-up slice of the task switched to; sets the next deadline; changes no context and no memory. The queue is in disorder afterwards iff it yields, a task is ready, and the caller's priority is above that of every ready one. |
| Traps.Handler.RunUser | sw/bootc/kernel/task.c:44-55 | User code between two traps: registers, and stores one after the other, done iff each goes to the running task's own memory. |
| Traps.Handler.Dispatch | sw/bootc/sys/ksys_dispatch.c:5-49 | The switch, the status and the advance flag together: a completed call moves the caller's pc by 4 once and sets only a0, a blocked or retried one leaves its whole context, and whoever is switched to is not advanced. |
| Traps.Handler.Finish | sw/bootc/sys/ksys_dispatch.c:44-48 | What the three statuses and the advance flag lead to. |
| Traps.Handler.CallService | sw/bootc/sys/ksys_dispatch.c:21-42 | Each call's status, its answer, and the exact condition for a panic or for undefined memory. |
| Traps.Handler.HeapCall | sw/bootc/sys/ksys_dispatch.c:21-28 | malloc and free: undefined or panicking exactly as the caller's own heap tells, otherwise a0, that heap and nothing else. |
| Traps.Handler.TerminalCall | sw/bootc/sys/ksys_dispatch.c:29-42 | putc, puts and getc, and codes that name no call: the status, what is sent and a0, or the caller blocked; nothing else changes. |
| Traps.Handler.SwitchingCall | sw/bootc/sys/ksys_dispatch.c:10-20 | exit and yield: exit panics iff no task is ready, yield puts the queue in disorder iff the caller's priority is above that of the head; otherwise the whole effect of the trap. |
| Traps.Handler.KPutc | sw/bootc/sys/ksys.c:42-49 | Sends the character and is done iff one of at most 1024 polls finds the terminal idle; otherwise sends nothing and asks to be retried. |
| Traps.Handler.KPuts | sw/bootc/sys/ksys.c:61-68 | Sends every character once, in order, and a newline, however often the terminal is busy. |
| Traps.Handler.KGetc | sw/bootc/sys/ksys.c:51-59 | Stores the byte received in the low byte of a0, or blocks the caller on the external interrupt with its context kept. |
| Traps.Handler.KMalloc | sw/bootc/sys/ksys.c:32-40 | The answer of the caller's own heap; nothing but that heap changes. |
| Traps.Handler.KFree | sw/bootc/sys/ksys.c:24-30 | A pointer outside the caller's own aligned payload range is ignored, with nothing changed; a block that is not allocated panics, any other is released. |
| Traps.Handler.KYield | sw/bootc/sys/ksys.c:19-22 | The head of the queue runs, the caller at its place by priority behind it; every view of a context and every heap is kept; the queue is in disorder iff the caller's priority is above that of the head. |
| Traps.Handler.KExit | sw/bootc/sys/ksys.c:13-17 | The caller's slot is empty afterwards, everyone else's context as saved; panics iff no task is ready. |
| Traps.Handler.AdvanceDeadline | sw/bootc/trap_handler.c:26-27 | Through the bus, read in halves and written in halves while time goes on, the deadline is one tick later. |
| Traps.TraceFollows | sw/bootc/trap_handler.c:11-60 | Over a whole run of traps the schedule is one run of the rota, so round robin and the idle task's law hold along it. |
| Traps.HighestPriorityRuns | sw/bootc/kernel/scheduler.h:16-18 | Over a whole run no ready task ever has a higher priority than the one that runs, and the queue stays in order of priority. |
| Traps.EqualsTakeTurns | sw/bootc/kernel/scheduler.h:16-18 | Tasks of one priority: over a whole run no trap puts the queue in disorder, it stays doubly linked, and the task at position k runs after the (k + 1)-th switch. |
| Traps.SliceCountsDown | sw/bootc/trap_handler.c:17-29 | While no trap switches, the running task's slice is what it was less the timer interrupts since. |
| Traps.PreemptedInTime | sw/bootc/trap_handler.c:33-36 | A task is switched out by as many timer interrupts as its slice had ticks, if it does not give way before. |
| Traps.WaitingTaskUntouched | sw/bootc/kernel/task.c:190-203 | A task that runs at none of the traps of a run has, at its end, bit for bit the context it was switched out with, its heap, and every byte of its stack and heap block, whatever the others did and wrote. |
| Traps.ResumedWhereTrapped | sw/bootc/sys/ksys_dispatch.c:44-48 | When a task next runs after a trap of its own, it goes on with the context of that trap, apart from the effect of its call. |
| Traps.EnabledAlong | sw/bootc/kernel/scheduler.c:167-175 | From the first switch of a run on, the timer and exactly what blocked tasks wait for are enabled whenever a task runs; until then mie is what it was at the start. |
| Traps.PanicsOnlyByFault | sw/bootc/kernel/scheduler.c:136-191 | A run with a task that never blocks or ends, as idle, panics only by a fault or by the free of a block that is not allocated. |
| Traps.SecondFreePanics | sw/bootc/kernel/heap.c:104-108 | malloc, free, free: the first free restores the list, the second panics. |
| Rotas.RoundRobin | sw/bootc/kernel/scheduler.h:16-18 | Among tasks of one priority, one at position k of the ready queue moves up one place at each switch and runs at the (k + 1)-th, whatever arrives, blocks or ends meanwhile. |
| Rotas.IdleKeepsScheduleAlive | sw/bootc/kernel/kernel.c:16-20 | One task that never blocks or ends is enough for the schedule never to run out of tasks, for any priorities, as long as no yield puts its caller in front. |
| Rotas.AfterIsTop | sw/bootc/kernel/scheduler.h:16-18 | After any events that are possible the queue is in order of priority, and after a switch no ready task is above the running one. |
| Rotas.TopYieldsExactly | sw/bootc/kernel/scheduler.c:122-134 | With a task of the highest priority running, a yield keeps the queue right iff no other task is ready or the head is its equal. |
| Rotas.LevelNext | sw/bootc/kernel/scheduler.h:16-18 | Among equals the queue is first in, first out, and no yield is ever in front. |
| Scheduler.Kernel.Schedule | sw/bootc/kernel/scheduler.c:114-192 | For any priorities: panics iff the current task does not go on and no other is ready; otherwise the head of the queue runs, and exactly one task does; the queue is right afterwards iff the current task was not RUNNING with a priority above that of the head of a nonempty queue, and if it was, the task that runs is still in the queue, behind the one before, and all others are lost. |
| Scheduler.Kernel.RetireCurrent | sw/bootc/kernel/scheduler.c:122-134 | A running task goes back to its place by priority, a terminated one is destroyed, a blocked one left; no byte of another task's blocks changes; a push in front leaves the old head without its prev link. |
| Scheduler.Kernel.DispatchNext | sw/bootc/kernel/scheduler.c:136-176 | The head leaves the queue and runs, with a refilled slice if it had none; if the head is the task just put back and is not alone, the next one runs and stays in the queue. |
| Scheduler.Kernel.Search | sw/bootc/kernel/scheduler.c:137-185 | The search loop on any acyclic queue, and that its count panic cannot happen. |
| Scheduler.PickIs | sw/bootc/kernel/scheduler.c:141-152 | While the queue holds exactly the READY tasks, the search stops at the head, or behind it if the head just ran and is not alone: the last two panics cannot happen. |
| Scheduler.Kernel.PickNext | sw/bootc/kernel/scheduler.c:137-158 | The candidate found is READY, and at the head of the queue unless the head just ran and is not alone. |
| Scheduler.Kernel.RunPicked | sw/bootc/kernel/scheduler.c:153-165 | The task picked becomes current and RUNNING, with a fresh slice if it had none; from the head it leaves a right queue, and from elsewhere with no prev link it stays, as the last. |
| Scheduler.Kernel.CollectMie | sw/bootc/kernel/scheduler.c:167-175 | The interrupts enabled are the timer and those of AwaitedIrqs, no more and no less. |
| Scheduler.AwaitedExactly | sw/bootc/kernel/scheduler.c:168-174 | An interrupt is among them iff some blocked task waits for it. |
| Scheduler.Kernel.SwitchToNext | sw/bootc/kernel/task.c:190-203 | Whoever runs next, no task's own view of its context changes; outcome and queue are those of schedule, and no byte of another task's blocks changes. |
| Scheduler.SwitchKeepsViews | sw/bootc/context.c:3-9 | Saving the trap frame before and loading it after a switch keeps every task's view. |
| Scheduler.ScheduledKeeps | sw/bootc/kernel/scheduler.c:114-192 | A schedule changes no context, id, priority or heap, and no state but those of the two tasks. |
| Scheduler.Kernel.BlockCurrent | sw/bootc/kernel/scheduler.c:194-203 | The running task becomes blocked and marked with the interrupt; a slot stays marked iff its task is blocked. |
| Scheduler.Kernel.WakeTasks | sw/bootc/kernel/scheduler.c:205-234 | Exactly the tasks waiting for the interrupt become ready, in slot order, each at its place by priority. |
| Scheduler.Kernel.WakeSlot | sw/bootc/kernel/scheduler.c:209-231 | The panic for a marked task that is not blocked cannot happen. |
| Scheduler.Kernel.Tick | sw/bootc/trap_handler.c:17-29 | The slice of the running task goes down by one on the timer, and never underflows. |
| Scheduler.Kernel.Exit | sw/bootc/sys/ksys.c:13-17 | The caller's slot is empty afterwards, everyone else's context as saved and every byte of their blocks kept; panics iff no task is ready. |
| Scheduler.Kernel.Spawn | sw/bootc/kernel/task.c:87-97 | The new task takes the first free slot and its place by priority in the queue; no byte of an existing task changes; with a 32 KiB heap it fails only when all slots are taken. |
| Scheduler.Kernel.Start | sw/bootc/kernel/scheduler.c:98-112 | Enters exactly a ready task, from anywhere in the queue, and panics for any other id; exactly that entry leaves the queue if its prev link is right, and it stays, as the last, if not. |
| Boot.KernelMain | sw/bootc/kernel/kernel.c:27-43 | From init_heap through two spawns, the first deadline and the start to the first user instruction: the kernel's invariants hold, for the priorities 0 and 50 it boots with; the ids are 0 and 257, idle waits alone in a right queue, no interrupt is enabled, and the comparator is one tick after a time read from the running clock. |
| Boot.FirstYield | sw/bootc/kernel/scheduler.c:114-165 | With the boot priorities, a yield of the user task and the end of its slice put the queue in disorder, and a blocking call does not. |

## Left out

- The simulator, its windows, ELF loading and terminal: display and host code.
- What a step does with a word that is no instruction, but for its trap: in machine mode `Legality.LegalExactly` says which words those are.
- Fence is modelled as the code has it: any word with its opcode does nothing.
- `trap_mode` of `trap_control.sv`: an input of the control unit that no arm reads.
- Instruction words outside the ROM: an arbitrary function of the address; fetching there always traps.
- Device answers (UART and CLINT read data, interrupt lines): fresh inputs in every cycle. A UART read request is not suppressed by a trap, and the model says so.
- Inside the UART: not part of this model.
- KernelHeap.Heap.Free: requires that a pointer `is_valid_heap_ptr` accepts is the payload of some block, allocated or not; the code would read whatever lies before it. A system call that frees such a pointer, possible after a merge, ends a run of the model as UNDEFINED, and so does a malloc that makes a block its own successor.
- KernelHeap.Heap.constructor: requires a region above address 0 whose end does not wrap 32 bits, as the kernel's two callers give it.
- Traps.Handler.RunTraps: ends at a trap after which the queue is in disorder, memory holds no block list, or user code has written memory that is not its task's; what the kernel does from there is not modelled. Slices do not wrap, so priorities are not huge. The string of puts is a parameter, and the terminal is taken not to stay busy for good: the kernel would poll it forever.
- Boot.KernelMain: the timer, when it is read, and the two entry points are parameters; what `Clint.Bus.GetTime` assumes of them is assumed here too. The panic for a failed first spawn cannot happen on a fresh heap.
- TaskTable.Table.PerformAll: for at most 65536 creations, counted from the first; beyond, ids do repeat.
- Conformance.CsrSteps: the bits of mip are left to `Core.WrittenCsrReadsBack`, because two of them follow the interrupt lines.
- Clint.Bus.GetTime: assumes no write to mtime, and that two attempts take fewer than 2^32 advances; the loop has no bound of its own.
- Rtl.ProcessorCore.constructor: gives every unit its reset value; at power-up the code sets only the pc and data memory, and the rest at the first reset edge.
- Rtl.PipeReg.Clock: like PrivControl, InstFetch and SleepControl a transcription of its unit; what they do together is the row of `Rtl.ProcessorCore.Tick` and the theorems about `Core.Clock`.
- The interrupt mask of a blocked task is a set of interrupt numbers, not a word.
- The assembly stubs, among them the copy of mcause into the trap frame, linker layout and the user program.
