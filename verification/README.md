# A verified model of the MIPS pipeline simulator

The simulator runs MIPS32 programs on a five-stage pipeline whose stages update shared latches in place, over a flat
big-endian memory behind two address translations. This project models that core, the memory unit and the device
allocator in Dafny and proves:

- **The pipeline is the instruction set, cycle for cycle.** For every run whose instructions satisfy `Hazards.Ok`, a
  test on the words in flight and on the addresses stored to, and for every number of ticks, the registers, CP0 and memory
  of the pipelined core are those of a one-instruction-at-a-time machine with `pc` and `npc`, and the tick in which each
  instruction commits is known exactly, through stalls, branches, exceptions and ERET (`Correctness.Refines`,
  `Schedule.CycleCount`). That machine is in turn proved equal to an instruction set written down in plain numbers, from
  the bits of each word on (`Instructions.EffectOf`, `Reference.StepIsMeaning`, `Results.InRun`).
- **What happens when that test fails.** Its test on operands is exact (`Muxes.HarmlessSuffices`, `Muxes.HarmlessNeeded`), and
  the operands and results that the pipeline produces for an instruction harmed by register numbers that clash in flight
  are given in terms of the specification run (`Clashes.Delivered`, `Clashes.Leaves`), with programs that show each case.
- Precise exceptions with the exact exception record, the exception/ERET round trip, exactly one delay slot, operand
  correctness, stage occupancy, and the end of the run loop with its result, its tick count and the memory it leaves.
- For every instruction stream, supported or not: $zero, the PC slot, register numbers, the load-use interlock and the
  conservation of fetches and bubbles.
- The memory model, the unaligned accesses, and the device register allocator with its byte-reversed table.

## How it is laid out

| file | contents |
|---|---|
| `Words`, `Bits`, `Isa`, `Latches` | 32-bit words, masks and shifts, instruction fields and constants, the pipeline registers |
| `Memory`, `MemoryModel`, `Unaligned` | translations and accesses; what they amount to; LWL, LWR and SWR |
| `Stages`, `Pipeline` | the stage blocks as functions; a tick as a simultaneous update of the latches |
| `Machine`, `Mmu`, `Devices` | the objects whose methods update registers, latches, memory, list and table in place |
| `Sequential` | the specification machine, one whole instruction per step |
| `Instructions`, `Reference` | the instruction set in numbers; the proof that the specification machine is it |
| `Schedule` | the tick in which each instruction commits, computed on the specification machine |
| `Hazards`, `Muxes`, `Footprint` | which instructions may follow each other; the operand muxes, exactly; tests on store addresses |
| `Matching`, `Forwarding`, `Refinement`, `Timing` | the invariant between latches and specification states, stage by stage, and the clock |
| `Correctness`, `Exceptions`, `ControlFlow`, `Definedness`, `Results` | the theorems about runs |
| `Clashes`, `Deviations` | what clashing register numbers do; where the code departs from its documentation, and exactly when it does not |
| `Programs`, `Example`, `Counterexamples` | programs in memory: runs the theorems apply to, and runs that go wrong |
| `Safety` | every instruction stream |

The specification machine uses the pipeline's own decode, ALU, memory and write-back blocks, each on an empty latch, so
that refinement is about overlap alone: hazards, forwarding, stalls, redirects and flushes. `Reference` then ties those
blocks to `Instructions`, which names none of their fields, opcodes, masks, sign extensions or exception codes: it takes
words apart by division, adds modulo 2 to the 32 and writes opcodes, register slots and exception codes as numbers. What
that leaves to memory and to the bitwise operations is pinned down byte by byte and bit by bit in `MemoryModel` and `Bits`.

## What the run theorems assume

`Hazards.Ok` is asked of each instruction that commits (`Hazards.Runs`); nothing is asked of those fetched behind an
exception, an ERET or the exit syscall. It has three parts:

- `Hazards.Supported`: any word but LL and the R-type functions the ALU does not list. Both leave the previous ALU result
  in EX_MEM, which depends on bubbles; no other word does (`Results.SupportedExactly`).
- `Hazards.Harmless`: given the words that the schedule puts one and two ticks ahead (`Schedule.Ahead`), both operands come
  out of the forwarding unit right. The unit compares register numbers only, which CP0 and general registers share, and
  JAL's link value and $ra pass through the muxes under the numbers rs, rt and 31. The test is exact for the operands
  delivered, whatever the registers hold; it does not excuse a wrong operand that the instruction would not use.
  `Hazards.Compatible` with the two words before is a simpler test that suffices (`Hazards.CompatibleOk`); it shuts out
  every refused forward, also those that do no harm.
- `Hazards.WordKept`: neither of the two instructions before it, which have not reached memory when it is fetched, stores
  into its word. `Footprint.StoresElsewhere` gives a test on addresses; a program that stores outside the bytes it is
  fetched from satisfies this part throughout (`Footprint.CodeKept`).

Branches, jumps, JAL, MFC0, MTC0, ERET, SYSCALL, all loads and stores (SWL and SC as the code has them), stores refused by
the descriptor area, and words of unknown opcode are all included.

Cycle counts: `Due(a, k)` is the tick in which instruction `k` (from 0) commits, 5 for the first, then 4 more after a
flush, 2 across a load-use stall, otherwise 1.

An access that leaves the plain memory (a NULL translation, which C leaves undefined, or an I/O area) reads 0 or does
nothing in the model and sets the state's `outside` flag. The theorems hold whatever the flag; the model follows the
simulator for as long as it is clear, and `Definedness.OutsideIff` says exactly when that is, in terms of the fetch
addresses and of the accesses of the run's own instructions.

Signed additions that overflow are modelled as wrapping, as the exceptions raised for them leave their results unused or
the source casts them back to unsigned words.

## Where code and comments disagree

The model follows the code. `handle_exception` announces "subtract 4" but stores the victim's address plus 4 in EPC. SUB
adds. The kseg0 branch of `translate_vaddr` cannot be reached. Branches and jumps pass their registers through the
overflow-checked adder and can raise an overflow exception. JAL's link is added to whatever its muxes find. The exit
syscall does not stop its own tick, so the access of the instruction behind it still reaches memory. Adding a device twice
makes the device list circular.

## Model

| member | source | states |
|---|---|---|
| Correctness.Refines | src/sim.c:862-878 | for every run: between the commits of instructions k-1 and k, registers and CP0 of the pipelined core equal the one-instruction machine's before k; memory too until k passes MEM, and then k's memory |
| Schedule.Committed | src/sim.c:862-878 | every tick lies between two consecutive commits, so the refinement covers every tick |
| Correctness.InStages | src/sim.c:230-259 | four, three, two and one ticks before it commits, each instruction of a run is in IF_ID, ID_EX, EX_MEM and MEM_WB with the specified contents |
| Correctness.Operands | src/sim.c:747-860 | in ID_EX every instruction of a run carries the architectural values of the registers it names |
| Correctness.MemSeesRegisters | src/sim.c:501-551 | the registers read directly in MEM by LWL, LWR, SWL and SWR are the architectural ones, as the only older instruction has just been written back |
| Correctness.RefusedForwards | src/sim.c:762-850 | for every instruction of a run, harmed or not: exactly when an operand meets an "illegal forward" exit, by the words one and two ticks ahead; never behind compatible words |
| Muxes.OperandExact | src/sim.c:762-808 | one operand mux behind arbitrary latches: exactly when it yields the register's newest value, for refused forwards and for forwards from either file |
| Muxes.RefusedExact | src/sim.c:762-782 | a refused operand A is right if and only if MEM_WB has nothing new for it, and operand B then if and only if it needs no forward |
| Muxes.HarmlessSuffices | src/sim.c:747-860 | behind harmless words the unit delivers both operands, whatever latches and registers hold |
| Muxes.HarmlessNeeded | src/sim.c:747-860 | behind any other words there are latch and register contents for which an operand comes out wrong |
| Hazards.CompatibleHarmless | src/sim.c:749-754 | pairwise compatible words are harmless, and none of their forwards is refused |
| Hazards.NeverIllegal | src/sim.c:767-778 | for compatible words the illegal-forward test never fires on a matching number |
| Forwarding.NewestIsNext | src/sim.c:763-808 | the newest value in EX_MEM, MEM_WB and the register file, from either file, is the register's value after both older instructions |
| Forwarding.OperandsMatch | src/sim.c:230-259 | decode followed by forwarding gives the specification machine's decoded instruction |
| Clashes.Delivered | src/sim.c:747-860 | for every instruction of a run, harmed or not: the operands in ID_EX, in terms of the specification run; a refused one is the register before the oldest instruction in flight |
| Clashes.Leaves | src/sim.c:263-384 | for every such instruction that computes a register: the register then holds the ALU's result on the delivered operands |
| Refinement.RunStep | src/sim.c:862-878 | a tick without flush keeps the invariant between latches and specification states, and stalls exactly on a load-use pair |
| Refinement.FlushStep | src/sim.c:688-729 | a tick that takes an exception or ERET keeps the invariant, with the pipeline emptied and the next instruction fetched |
| Refinement.ExitStep | src/sim.c:716-725 | the tick of the exit keeps registers and CP0, and the instruction behind it still passes MEM |
| Refinement.PcStep | src/sim.c:38-63 | the address fetched is the specification's next one, through branches, bubbles and straight code |
| Refinement.FetchStep | src/sim.c:38-55 | the word fetched is the one the specification executes although two older instructions have not reached memory |
| Refinement.FetchedStep | src/sim.c:45-63 | the tick stalls exactly when the word fetched names the register loaded just ahead |
| Refinement.MarkStep | src/sim.c:414-450 | the instruction in IF_ID gets the delay mark exactly when the one in EX takes its branch |
| Refinement.CommitStep | src/sim.c:731-744 | an instruction that retires, or a bubble, leaves the specified register files |
| Refinement.ExStep | src/sim.c:386-457 | EX leaves the specified EX_MEM contents and redirects the PC as specified |
| Refinement.IdStep | src/sim.c:230-259 | ID with forwarding leaves the specified ID_EX contents |
| Refinement.MemStep | src/sim.c:459-642 | MEM leaves the specified MEM_WB contents and memory |
| Timing.Track | src/sim.c:862-878 | after every tick of a run the pipeline stands in the invariant on schedule |
| Timing.LatchesAhead | src/sim.c:870-876 | when an instruction is decoded, EX_MEM and MEM_WB hold the ones that commit one and two ticks before it, or bubbles |
| Schedule.CycleCount | src/sim.c:890-907 | instruction n (from 0) commits in tick (n+1) + 4 + stalls + 3 per flush |
| ControlFlow.Commits | src/sim.c:688-744 | the tick in which an instruction commits leaves the specified registers and CP0, whatever follows |
| ControlFlow.DelaySlot | src/sim.c:414-450 | a taken branch is followed without bubble by the instruction fetched next, which commits one tick later, marked; then comes the target |
| ControlFlow.StopsOnTime | src/sim.c:716-725 | the machine is not finished before the tick in which the exit syscall commits and is finished after it, with the specified registers |
| ControlFlow.FinalMemory | src/sim.c:721-725 | the run leaves the memory after the instruction behind the exit; it is the one at the exit if and only if that instruction's access changes no byte |
| Definedness.OutsideIff | src/mem.c:44-159 | the core has left plain memory after t ticks if and only if one of its fetch addresses, or the access of an instruction of the run that has passed MEM, did |
| Example.Ends | src/sim.c:716-725 | a program that sets $v0 to 10 and makes the exit syscall satisfies the run theorems' assumptions and ends in tick 6 |
| Example.StoresAfterExit | src/sim.c:721-725 | with a store behind the exit, that program leaves memory with the store done |
| Example.StallsOnce | src/sim.c:45-53 | a load-use program meets the assumptions, takes one bubble, ends in tick 9 and has the loaded word doubled |
| Example.TrapsAndReturns | src/sim.c:688-729 | a program that traps into a handler made of ERET meets the assumptions: taken in tick 5 with Cause 8 and the word at 0x80000080 fetched, back in tick 9 with SR restored, ended in tick 14 |
| MachineObject.Machine.Run | src/sim.c:890-934 | the loop ends after exactly the counted ticks and returns the specified $v1, with the memory of `ControlFlow.FinalMemory` |
| MachineObject.Machine.TickOnce | src/sim.c:870-876 | the six in-place stage calls amount to the simultaneous update |
| Pipeline.InPlaceIsSimultaneous | src/sim.c:870-876 | calling the stages in reverse order on shared latches equals a simultaneous latch update |
| MachineObject.Machine.InterpretIf | src/sim.c:38-63 | in place: fetch with load-use stall, as the stage function |
| MachineObject.Machine.InterpretIdControl | src/sim.c:66-228 | in place: control bits, source and destination numbers, and values for every opcode |
| MachineObject.Machine.InterpretId | src/sim.c:230-259 | in place: the decoded ID_EX latch |
| MachineObject.Machine.InterpretExAlu | src/sim.c:263-384 | in place: result and exception of every ALU operation, the old result where no case applies |
| MachineObject.Machine.TakeBranch | src/sim.c:414-450 | in place: PC redirect, delay mark and resolved jump address |
| MachineObject.Machine.InterpretEx | src/sim.c:386-457 | in place: the EX_MEM latch and the redirect |
| MachineObject.Machine.InterpretMem | src/sim.c:459-642 | in place: the MEM_WB latch and memory |
| MachineObject.Machine.MemRead | src/sim.c:481-552 | in place: the five loads |
| MachineObject.Machine.MemWrite | src/sim.c:555-641 | in place: the stores |
| MachineObject.Machine.HandleException | src/sim.c:645-686 | in place: emptied latches, CP0 record and handler PC |
| MachineObject.Machine.InterpretWb | src/sim.c:688-745 | in place: ERET, exceptions, exit and write-back |
| MachineObject.Machine.ForwardingUnit | src/sim.c:747-860 | in place: both operand muxes with their refusals |
| MachineObject.Machine.constructor | src/sim.c:944-981 | a loaded machine starts with empty latches at the entry point, $sp at the top of kseg0, SR 1, all else 0 |
| Exceptions.PreciseException | src/sim.c:645-729 | when an exception is taken, registers and memory are those just before the victim, before and after the tick; CP0 holds the record with the code in numbers; nothing younger remains; the handler is being fetched |
| Exceptions.RaiseRecords | src/sim.c:655-686 | EPC is the victim's address + 4, Cause the delay bit and 8 for SYSCALL, 5 for a refused store, 12 for an overflow, by the victim's word and operands; EXL is set; all other CP0 registers, registers and bytes are unchanged |
| Exceptions.BranchDelayBit | src/sim.c:657-665 | Cause.BD is set exactly when the victim directly follows a taken branch or jump in the run |
| Exceptions.RoundTrip | src/sim.c:691-714 | an ERET that finds EPC and SR as the exception left them resumes at the victim + 4 with SR restored; nothing fetched behind it had any effect |
| Exceptions.EretReturns | src/sim.c:693-713 | ERET changes the PC and the EXL bit and nothing else |
| Instructions.Joined | src/mips32.h:108-117 | opcode, registers, shift amount, function, immediate and target put together again give the word, in all three formats |
| Reference.StepIsMeaning | src/sim.c:66-384 | on every supported word and state, one specification step is the effect written down in numbers for that word, and ends as it says |
| Reference.RunIsMeaning | src/sim.c:862-878 | every instruction of a run has its written-down effect |
| Reference.LoadedValue | src/sim.c:481-552 | the loads return the written-down values, LWL and LWR as byte arithmetic |
| Reference.ExtensionIsOffset | src/mips32.h:119 | sign extension gives the word of the immediate's two's complement value |
| Reference.RecordIs | src/sim.c:655-683 | EPC, Cause and SR in numbers, and the handler at 0x80000080 or in EBase by SR's bit 22 |
| Results.InRun | src/sim.c:862-878 | the tick in which an instruction of a run commits leaves in the pipeline the registers and CP0, and the tick before it the memory, of its written-down effect |
| Results.ImmediateResult | src/sim.c:355-357 | ADDIU in a run: base plus the number of the low 16 bits, less 0x10000 from 0x8000 on, modulo 2 to the 32 |
| Results.ComparisonResult | src/sim.c:320-322 | SLT in a run: 1 if and only if the words shifted by 0x80000000 compare so |
| Results.LoadResult | src/sim.c:271-279 | LW in a run reads at base plus number; if the sum is no 32-bit number it raises Cause 12 and changes no register |
| Results.StoreResult | src/sim.c:557-561 | SW in a run writes at base plus number; refused with Cause 5 in the descriptor area, with 12 on overflow |
| Results.BranchResult | src/sim.c:428-449 | BEQ and BNE in a run: the target from the bits of the word, and its word fetched by the pipeline |
| Results.JumpResult | src/sim.c:151-161 | J and JAL in a run: the target in the slot's 256 MB region, four times the low 26 bits, and its word fetched |
| Results.StallRule | src/sim.c:45-53 | a stall follows exactly the five loads when the next word's rs or rt field names the loaded register |
| Results.RefusalRule | src/sim.c:767-778 | a forward is refused exactly when writer and reader mean different register files and are not both CP0 words |
| Results.SupportedExactly | src/sim.c:288-383 | the unsupported words are exactly those for which EX leaves the ALU result it finds |
| Results.SupportedWords | src/sim.c:263-384 | the supported words in numbers: all but opcode 0x30 and the words of opcode 0 with none of thirteen functions |
| Results.BadAddress | src/sim.c:667-670 | BadVAddr is written for an address error on a load and for nothing else |
| Isa.CauseCodes | src/exception.c:25-85 | the code of every exception |
| Words.SignedIsTwosComplement | src/sim.c:320-322 | the cast to a signed word: in range and congruent |
| Bits.LogicBits | src/sim.c:309-318 | AND, OR and NOR, bit by bit |
| Bits.SameBits | src/sim.c:309-318 | a word is determined by its 32 bits |
| Matching.AluDefined | src/sim.c:288-383 | a supported word never leaves the old ALU result in EX_MEM, unless it raises an exception |
| Footprint.StoresElsewhere | src/sim.c:555-641 | an instruction whose store does not overlap a word in memory leaves the word for the fetch, at any addresses |
| Footprint.ApartInKseg0 | src/mem.c:161-250 | in kseg0 a store keeps clear of a fetched word if their addresses do |
| Footprint.CodeKept | src/sim.c:38-63 | a program that stores outside the bytes it is fetched from executes the words it was loaded with, and whether it may run is a matter of those words |
| Safety.AlwaysSafe | src/sim.c:735-743 | for every program and tick: $zero is 0, write-back reaches neither the PC slot nor CP0 slot 0, and the interlock holds |
| Safety.SafeTick | src/sim.c:862-878 | one tick keeps those facts, whatever the instructions |
| Safety.NeverForwardsLoadAddress | src/sim.c:47-53 | with a load in EX_MEM, a forwarded operand always comes from MEM_WB (JAL apart) |
| Safety.NoDoubleStall | src/sim.c:47-53 | bubbles never come in consecutive ticks |
| Safety.Throughput | src/sim.c:38-63 | ticks are fetches plus bubbles; bubbles never exceed the loads decoded, nor every second tick |
| Deviations.JalExact | src/sim.c:158-174 | JAL behind arbitrary latches: EX's result is the address behind the delay slot if and only if nothing is forwarded to rs and the muxed rt value is 0, or the sum happens to agree |
| Deviations.JalLeaves | src/sim.c:158-174 | for every JAL of a run, harmed or not, that raises no overflow: $ra ends up as the sum of the delivered operands, right exactly under that condition |
| Deviations.JalLink | src/sim.c:158-174 | for a JAL of a run that satisfies `Hazards.Ok`: right in the pipeline if and only if the register named by target bits 20..16 is 0 |
| Counterexamples.WrongLink | src/sim.c:812-833 | ADDIU $ra, $zero, 8 before a JAL that names $zero: the link comes out 8 too large |
| Counterexamples.StaleOperand | src/sim.c:762-782 | a three-word MTC0 program in which a refused forward leaves operand B stale; the sum is right if and only if the register did not change |
| Counterexamples.ForeignOperand | src/sim.c:762-808 | a two-word MFC0 program that is given a general register for a CP0 register; right if and only if the two CP0 registers agree |
| Counterexamples.RefusedHarmless | src/sim.c:762-782 | a two-word program with a refused forward that does no harm, to which the run theorems apply |
| Deviations.SubSubtracts | src/sim.c:300-302 | SUB yields the difference if and only if the subtrahend is 0 or 0x80000000 |
| Deviations.SubFails | src/sim.c:300-302 | a SUB of 3 from 5 gives 8 |
| Deviations.BranchRaises | src/sim.c:271-279 | BEQ and BNE raise an exception if and only if the sum of the compared registers overflows |
| Deviations.BranchFails | src/sim.c:271-279 | a BEQ of a register with itself raises when it holds 0x40000000 |
| Deviations.ExitTickMemory | src/sim.c:721-725 | whatever stands behind the exit: memory is the specified one when the exit syscall reaches write-back, and that last tick performs the store waiting in EX_MEM and changes nothing else |
| Memory.TranslationSegments | src/mem.c:161-197 | the kseg0 branch of the address translation is never taken, and the descriptor area translates to 0 |
| MemoryModel.TranslationInBounds | src/mem.c:161-250 | for every memory size, a non-NULL translation leaves room for a word |
| MemoryModel.TranslationTable | src/mem.c:161-250 | where every address below the I/O areas lands, or NULL, for every memory size below 4 GiB |
| MemoryModel.Kseg0Linear | src/mem.c:161-250 | in kseg0 the translation is the offset below an eighth of memory and NULL above |
| MemoryModel.ReadIsBigEndian | src/mem.c:83-97 | the bytes of a read of any width are the bytes from where its address lands, most significant first |
| MemoryModel.WriteSetsBytes | src/mem.c:138-152 | a write of any width sets its own big-endian bytes and no others |
| MemoryModel.WriteElsewhere | src/mem.c:107-136 | a write that does not reach plain memory changes no byte and is refused exactly in the descriptor area |
| MemoryModel.ReadBack | src/mem.c:138-152 | reading back a write gives the truncated value |
| MemoryModel.ReadOther | src/mem.c:138-152 | a read of a disjoint range is not affected by a write |
| MmuObject.Mmu.Read | src/mem.c:44-105 | in place: reads as the memory function, never an exception |
| MmuObject.Mmu.Write | src/mem.c:107-159 | in place: writes as the memory function, refusing the descriptor area |
| MmuObject.Mmu.SetBigAt | src/mem.h:56-67 | in place: the bytes of a big-endian store |
| Unaligned.UnalignedLoad | src/sim.c:502-551 | LWL at a then LWR at a+3 gives the big-endian word at a, whatever the register held |
| Unaligned.StoreThenLoad | src/sim.c:611-637 | SWR then LWR returns the stored low bytes; the register's other bytes and all other memory are unchanged |
| Unaligned.MergeLeftValue | src/sim.c:502-525 | LWL's masks and shifts in arithmetic terms |
| Unaligned.MergeRightValue | src/sim.c:529-550 | LWR's masks and shifts in arithmetic terms |
| Unaligned.StoreLeftValue | src/sim.c:583-605 | SWL's masks and shifts, with its second shift, in arithmetic terms |
| Unaligned.StoreRightValue | src/sim.c:611-631 | SWR's masks and shifts in arithmetic terms |
| Devices.AllocationAgrees | src/mem.c:258-312 | after any sequence of devices with non-zero typecodes, bases are the running totals from 0xFFFF0000 and the 2048 descriptors hold, field by field and byte by byte in the opposite order, the devices in order, zero behind, also on overflow |
| Devices.RegionsDisjoint | src/mem.c:282-285 | while the lengths fit, also exactly, regions are disjoint and start at the register area, and those that are not empty are contiguous |
| Devices.NextBase | src/mem.c:282-285 | the allocator's counter is the first free address, and 0 exactly when the area is full |
| Devices.FreeSlots | src/mem.c:298-312 | the first free slot is the one behind the devices added, none when full |
| Devices.ReverseIs | src/tools.h:8-12 | REVERSE's masks and shifts in arithmetic terms |
| Devices.ReverseMirrors | src/tools.h:8-12 | REVERSE puts the four bytes in the opposite order |
| Devices.ShutdownDevice | src/sim.c:938-941 | the device added first leaves typecode 0x03010000 and base 0x0000FFFF in slot 0 |
| Devices.ReverseTwice | src/tools.h:8-12 | byte reversal undoes itself and keeps 0 |
| MmuObject.Mmu.GetFreeDescriptor | src/mem.c:298-312 | the scan returns the first free slot or none |
| MmuObject.Mmu.DeviceDescriptorAdd | src/mem.c:258-272 | in place: the first free slot gets the reversed fields; nothing happens when full |
| MmuObject.Mmu.AddDevice | src/mem.c:274-295 | in place: the list holds every device newest first, and allocator and table follow the value model; a device already in the list makes it circular |
| MmuObject.Mmu.constructor | src/mem.c:13-41 | zeroed memory and table, empty list, segment sizes |
| Isa.Overflows | src/tools.c:19-28 | the overflow test is true exactly when two words of the same sign have a sum of the other one, that is, when the signed sum leaves the 32-bit range |

## Left out

- LL and unknown R-type functions in the run theorems: they keep a stale ALU result that depends on the bubbles in between.
- SWL's second shift and the SWR/SWL opcode constants: taken as the code has them, not related to the architecture's SWL.
- ControlFlow.FinalMemory: asks that the exit syscall's rd field be 0 and that the instruction behind it be one the pipeline may run; otherwise only Deviations.ExitTickMemory, which reads the last store off EX_MEM, applies.
- MachineObject.Machine.Run: stated for programs whose specification run reaches the exit syscall, since others need not stop; the loop's extra read of the word at the PC, made for the debugger and the log, and the debugger's stop flag are not modelled.
- MmuObject.Mmu.Read: reads of the I/O register and descriptor areas are reported as `outside`, not performed.
- MmuObject.Mmu.Write: writes to the I/O register area, which call a device, are reported as `outside`, not performed.
- Hazards.Harmless: counts an operand as wrong even where the instruction would not use it.
- Wrong-path accesses: words fetched behind an exception or ERET are discarded, but in C such a fetch may already dereference NULL; the model only records it in `outside`.
- I/O register area reads and writes, and descriptor-area reads: device callbacks are foreign code and the table is indexed by element; the model marks them `outside`.
- Segment separation of kuseg, kseg0 and kseg1: the code maps them onto the same bytes.
- BadVAddr beyond what the code writes: no path of the modelled core raises AddressErrorLoad.
- More than one core, TLB, interrupts and privilege levels: not implemented or not started by the simulator.
- ELF loading, debugger, disassembler, TTY, shutdown device, command line and logging: input and output only.
- Latch fields that no code reads (`branch_addr`, `c_branch`, `eff_addr`).
