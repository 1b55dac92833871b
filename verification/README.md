# Proofs about the RSP recompiler and the RDP pipeline

A Dafny model of three connected machines of this repository and of four small kernels, with proofs
of the properties their code relies on. `dafny verify dfyconfig.toml` checks everything.

## The recompiler of the paraLLEl RSP plugin

`Words` holds 32-bit words in 64-bit host registers; bit operations are defined bit by bit.
`HostCode` is the code the recompiler emits, as a small register-transfer language, with the machine
it runs on. A call into C sees one scalar register, data memory and the coprocessors, returns a
value and a mode, and may leave anything in the first `callerRegs` host registers; what it computes
is a parameter. `RegisterCache` has the cache's methods as functions of its table and shows that the
code they emit refines a plain register file; `RegisterCacheObject` is the object itself, updated in
place and equal to those functions. `CacheRequests` states the refinement for arbitrary requests.

`Isa` decodes words and interprets them one at a time with a pending-branch field; `Assembler` is
the encoding that decoding inverts, and `Calls` shows what the link is for. The operand semantics
are those of `jit_instruction`, which differs from `su.c` and `debug_rsp.cpp` on SLTIU's immediate
(sign-extended, then compared unsigned) and from `su.c` on when a link register is written (after
the condition). `Emitter` is `jit_instruction`; `EmitterProof` relates the code of every instruction
to the interpreter's effect. `StaticEnd` has the two scans over raw words, `Region` the emission
loop and a machine that runs regions, `RegionProof`, `CacheTheorem` and `RecompilerProof` the
simulation of one step, `RecompilerRuns` that of runs, `RecompilerTheorem` the consequences.
`BlockTable` is the table of compiled blocks over a mutable instruction memory, `BlockHash` what its
hash can tell apart. `ServedRegions` runs regions out of it, every entry a lookup, and
`RecompilerSystem` is the whole: tasks, runs and DMA that rewrites the program.

Within one run instruction memory is constant in the model; what a call wrote to it by DMA takes
effect when the run leaves, and is a parameter. The code guarantees this: such a DMA sets a dirty
bit, MTC0 then returns a mode other than MODE_CONTINUE (`mupen64plus-rsp-paraLLEl/rsp/cp0.cpp:192`),
and `run()` invalidates before it enters code again.

Two conditions are preconditions. The regions a run comes to hold no branch in a delay slot, which
the repository calls undefined; what lies elsewhere in memory does not matter. And no lookup finds
code that was compiled for other words with the same hash; `LookupsMatchHash` says what is served
without that, and `PatchesAreServed` that it never happens where no two regions looked up at one
start differ in more than one word. A third condition is found: `jit_instruction` treats a `BLEZ $0`
as static without checking whether its slot can be branched to, as it does check for jumps. A branch
to that slot within the region then silently takes the `BLEZ`; `AgreementExact` shows that nothing
else parts compiled code from the interpreter. The first and third condition are about the
interpreter's run and the cut into regions alone: `BaseAt` computes the region of each instruction
from these.

## The angrylion worker pool and command pipeline

`WorkerPool` is `Parallel` as a system of atomic steps, one per shared access, with any number of
workers and spurious wake-ups; `WorkerPoolTheorems` has the safety and progress theorems.
`RdpCommands` specifies the decoder and its command buffer one word at a time, and `RdpProcessor` is
the loop of `n64video_process_list` over its fixed slots. `CommandFront` has the main thread's
accesses to the slots one at a time, and `ReplayMachine` puts them, the pool's steps and the
workers' loops over the shared slots into one system of atomic steps; `ReplayTheorems` states what
holds in every interleaving, `ReplayProgress` how soon every word is dealt with, and
`ParallelReplay` has the batches themselves. `Retargets` says when draws to overlapping images can
share a batch.

One result is negative. Only the last colour and the last depth image are remembered, so at the low
level overlap with an older image of the same batch goes unseen; `MissedExactly` says exactly when,
and at the other levels it does not happen. The comment about ordinary buffer switches at
`mupen64plus-video-angrylion/n64video.c:391-392` holds for the last images only. `Pixels` ties the
barrier's extents to pixels; a second result there is negative. The barrier compares address and
extent alone, so a new pixel layout of the same extent at the same address passes for the identical
configuration of the comment at lines 404-407.

## Kernels

`ImageConvert` (the byte-unswapping wrap copy and the line interleave), `SpDma` (the SP DMA loops of
the cxd4 plugin), `PlaneSolver` (the integer triangle setup) and `SpriteBands` (splitting a sprite's
rows to fit TMEM). Where a stated bound is needed the exact condition is proved: buffers whose words
keep the order of their bytes, transfers within 8 MiB, images of which two rows fit, mirrored images
that start at row 0, mirrored bands that have not stepped past their rows, edges whose slope and
start are not rounded. The comment at `mupen64plus-video-angrylion/rdp_emit.c:118-120` that walked
edges pass exactly through their vertices holds for those only.

## Model

| member | source | states |
|---|---|---|
| `RecompilerTheorem.AgreementExact` | mupen64plus-rsp-paraLLEl/rsp_jit.cpp:1795-1918 | For every program, every cut of instruction memory into regions, every start and every n such that the first n instructions are in regions without a branch in a delay slot: compiled regions and the one-instruction interpreter show the same program counter, registers, data memory, coprocessors and mode after each of the first n instructions if and only if none of the first n instructions of the interpreter's run is in the slot of a BLEZ $0 (to elsewhere than the next word) that a branch of its region led to |
| `RecompilerTheorem.MeaningPreserved` | mupen64plus-rsp-paraLLEl/rsp_jit.cpp:1795-1918 | Until then they agree: a branch pending at a region's end is taken after exactly one more instruction, and one has left the run exactly when the other has |
| `RecompilerTheorem.FirstLandingBreaks` | mupen64plus-rsp-paraLLEl/rsp_jit.cpp:1308-1328 | The first such step parts them |
| `RecompilerTheorem.PlainNeverLands` | mupen64plus-rsp-paraLLEl/rsp_jit.cpp:1308-1328 | It never comes, on any run of the interpreter without a double delay slot, if no region labels the slot of a BLEZ $0 to elsewhere than the next word |
| `RecompilerTheorem.CutsDoNotMatter` | mupen64plus-rsp-paraLLEl/rsp_jit.cpp:448-469 | Two cuts of the same memory cannot be told apart by a run that lands on no such slot under either |
| `RecompilerTheorem.StoppedResumes` | mupen64plus-rsp-paraLLEl/rsp_jit.cpp:654-718 | A run that stopped leaves a CPUState from which the next run starts, even with other instruction memory |
| `RecompilerTheorem.Representable` | mupen64plus-rsp-paraLLEl/state.hpp:115-126 | Every architectural state, a pending branch included, has a CPUState from which compiled code can start |
| `RecompilerTheorem.ArrivalExact` | mupen64plus-rsp-paraLLEl/rsp_jit.cpp:1308-1328 | At a label reached by a branch the next compiled step shows the interpreter's state if and only if the label is not such a slot |
| `RecompilerTheorem.SilentBranchTaken` | mupen64plus-rsp-paraLLEl/rsp_jit.cpp:616-643 | From such a slot compiled code goes to the target of the BLEZ $0 and the interpreter to the next word |
| `RecompilerTheorem.BlezZeroDiffers` | mupen64plus-rsp-paraLLEl/rsp_jit.cpp:1308-1328 | A program that lands, run from the enter thunk: J 3 with BLEZ $0 in word 2; two instructions agree, the third leads to word 5 in compiled code and to word 4 in the interpreter |
| `Calls.SubroutineReturns` | mupen64plus-rsp-paraLLEl/rsp_jit.cpp:1230-1249 | A call by JAL, JALR $31 or a taken BLTZAL or BGEZAL, and however much later, register 31 being what the call left in it, JR $31: two instructions on, control is two words past the call |
| `Calls.CallReturns` | mupen64plus-rsp-paraLLEl/rsp_jit.cpp:1150-1213 | A subroutine that is just JR $31 comes back after four instructions, whatever is in the two delay slots so long as the call's keeps register 31 and neither branches nor stops |
| `Calls.JalReturns` | mupen64plus-rsp-paraLLEl/rsp_jit.cpp:1230-1249 | In machine words: 0x0c000000 + t, a NOP, and 0x03e00008 at t |
| `Calls.CompiledCallReturns` | mupen64plus-rsp-paraLLEl/rsp_jit.cpp:1016-1061 | Compiled code returns there too, whatever regions caller and subroutine are in |
| `Calls.CallStep` | mupen64plus-rsp-paraLLEl/rsp_jit.cpp:1016-1061 | After the call register 31 holds the byte address of the word after the slot, in 12 bits, and the subroutine is pending |
| `RecompilerRuns.RunRel` | mupen64plus-rsp-paraLLEl/rsp_jit.cpp:581-644 | Which region, and which copy of an instruction, compiled code is in after n steps follows from the interpreter's run and the cut: direct branches of a region stay in it when their target does, all else enters anew |
| `RecompilerRuns.PlainTame` | mupen64plus-rsp-paraLLEl/rsp_jit.cpp:1867-1872 | No run of a program with no branch in a delay slot anywhere comes to one |
| `RecompilerProof.StepRel` | mupen64plus-rsp-paraLLEl/rsp_jit.cpp:851-1696 | One chunk of compiled code does what one instruction does, from every state the invariant allows |
| `RecompilerProof.EnterRel` | mupen64plus-rsp-paraLLEl/rsp_jit.cpp:389-415 | The enter thunk leaves a state that represents the architectural one, with COND_BRANCH_TAKEN clear |
| `RecompilerProof.EndRel` | mupen64plus-rsp-paraLLEl/rsp_jit.cpp:480-514 | Off the end of a region a pending branch is carried in has_delay_slot and branch_target |
| `RecompilerProof.FirstRel` | mupen64plus-rsp-paraLLEl/rsp_jit.cpp:1855-1865 | A carried branch is taken after the region's first instruction and only then |
| `RecompilerProof.SlotRel` | mupen64plus-rsp-paraLLEl/rsp_jit.cpp:581-644 | After a delay slot the branch is taken or not as the interpreter decides |
| `RecompilerProof.SlotTransfer` | mupen64plus-rsp-paraLLEl/rsp_jit.cpp:581-606 | Where a delay slot lets control go, the register cache is empty and COND_BRANCH_TAKEN is zero |
| `RecompilerProof.ExitRel` | mupen64plus-rsp-paraLLEl/rsp_jit.cpp:646-718 | BREAK and the MFC0/MTC0 exits save the program counter the interpreter has, with everything in CPUState |
| `RecompilerProof.DirectLabelled` | mupen64plus-rsp-paraLLEl/rsp_jit.cpp:610-634 | Every local branch points at an instruction flagged as a block entry |
| `CacheTheorem.CompilationSound` | mupen64plus-rsp-paraLLEl/rsp_jit.cpp:2018-2027 | With three or more host registers no assertion of the register cache fails while any region is compiled, every flush sees no lock, and the cache is empty at every label |
| `RegionProof.LatentSim` | mupen64plus-rsp-paraLLEl/rsp_jit.cpp:1855-1865 | The code after a region's first instruction reads has_delay_slot and keeps every register |
| `RegionProof.SlotSim` | mupen64plus-rsp-paraLLEl/rsp_jit.cpp:581-606 | The code after a delay slot keeps every register, clears the condition and still has its old value to test |
| `RegionProof.EndSim` | mupen64plus-rsp-paraLLEl/rsp_jit.cpp:480-493 | The code at a region's end keeps every register and has the condition to test |
| `Region.JitRegion` | mupen64plus-rsp-paraLLEl/rsp_jit.cpp:1795-1891 | The emission loop, with its running cache and last_info, produces the code the specification describes chunk by chunk |
| `EmitterProof.BodySim` | mupen64plus-rsp-paraLLEl/rsp_jit.cpp:851-1696 | The code emitted for any instruction does what the interpreter does to registers, data memory and coprocessors, and records the branch condition and target |
| `EmitterProof.SimBinary` | mupen64plus-rsp-paraLLEl/rsp_jit.cpp:1063-1129 | Three-register operations and BEQ/BNE put the 32-bit MIPS result in the destination, whatever registers coincide |
| `EmitterProof.SimUnary` | mupen64plus-rsp-paraLLEl/rsp_jit.cpp:1354-1420 | Immediate operations, shifts by a constant and comparisons with zero, likewise |
| `EmitterProof.SimNotOr` | mupen64plus-rsp-paraLLEl/rsp_jit.cpp:1105-1117 | NOR is the complement of the OR |
| `EmitterProof.SimVariableShift` | mupen64plus-rsp-paraLLEl/rsp_jit.cpp:954-1000 | Variable shifts use the low five bits, with the amount in the scratch register while its source is released |
| `EmitterProof.SimLoadValue` | mupen64plus-rsp-paraLLEl/rsp_jit.cpp:780-849 | Loads give the bytes at the wrapped address, aligned inline or unaligned through a call, with the registers the call may overwrite saved |
| `EmitterProof.SimStoreValue` | mupen64plus-rsp-paraLLEl/rsp_jit.cpp:720-775 | Stores, likewise |
| `EmitterProof.SimCall` | mupen64plus-rsp-paraLLEl/rsp_jit.cpp:1482-1546 | A call sees its scalar operand in memory, and its result is in the register file afterwards |
| `EmitterProof.SimSaveTarget` | mupen64plus-rsp-paraLLEl/rsp_jit.cpp:310-315 | A register target is saved with the register's value before any link is written |
| `EmitterProof.SimJumpAndLink` | mupen64plus-rsp-paraLLEl/rsp_jit.cpp:1230-1249 | JAL writes the link and the branch condition |
| `Assembler.DecodeEncode` | mupen64plus-rsp-paraLLEl/rsp_jit.cpp:851-1696 | Every instruction, built from opcode, operand fields and immediate or target as the MIPS I encoding and its RSP subset have it, decodes to itself: operation, operands, zero- or sign-extended immediate, branch targets relative to the slot, COP0, COP2 and vector words included |
| `Assembler.DecodeOnto` | mupen64plus-rsp-paraLLEl/rsp_jit.cpp:851-1696 | No word decodes to anything else |
| `Assembler.Aliases` | mupen64plus-rsp-paraLLEl/rsp_jit.cpp:1063-1129 | ADD, SUB, ADDI and LWU are ADDU, SUBU, ADDIU and LW |
| `HostCode.AluExact` | mupen64plus-rsp-paraLLEl/rsp_jit.cpp:1063-1129 | On 64-bit registers with truthful extension tags every operation, SLTIU's unsigned comparison of sign-extended operands included, gives the 32-bit result in the low word |
| `HostCode.Comparisons` | mupen64plus-rsp-paraLLEl/rsp_jit.cpp:1063-1129 | Comparisons give 1 or 0, signed ones in the order of the words with the sign bit turned round |
| `HostCode.InlineLoadExact` | mupen64plus-rsp-paraLLEl/rsp_jit.cpp:242-270 | The inline load at the flipped address reads the bytes the out-of-line routine reads |
| `HostCode.InlineStoreExact` | mupen64plus-rsp-paraLLEl/rsp_jit.cpp:272-291 | The inline store writes the bytes the out-of-line routine writes |
| `HostCode.StoreThenLoad` | mupen64plus-rsp-paraLLEl/rsp_jit.cpp:242-291 | A load gives back what was stored, at every address, unaligned ones and ones that wrap at 4 KB included: the same low bits, as a signed or unsigned value of that width |
| `HostCode.LoadInBytes` | mupen64plus-rsp-paraLLEl/rsp_jit.cpp:242-270 | A halfword or word is its bytes, the first one highest, from successive addresses that wrap at 4 KB |
| `HostCode.StoreInBytes` | mupen64plus-rsp-paraLLEl/rsp_jit.cpp:242-291 | ... and is stored as these bytes |
| `Words.ShiftsOfExt` | mupen64plus-rsp-paraLLEl/rsp_jit.cpp:932-952 | Shifting a zero-extended or sign-extended 64-bit register right gives the 32-bit logical or arithmetic shift |
| `Words.BitwiseMask` | mupen64plus-rsp-paraLLEl/rsp_jit.cpp:960-964 | Masking with n ones is reduction modulo 2^n, as the address and shift-amount masks need |
| `Words.BitwiseSums` | mupen64plus-rsp-paraLLEl/rsp_jit.cpp:1105-1117 | Or and exclusive or by what they add up to with and: a + b - (a and b), and a + b - 2 (a and b) |
| `CacheRequests.RequestsRefine` | mupen64plus-rsp-paraLLEl/rsp_jit.cpp:1988-2270 | Any legal sequence of loads, assignments, unlocks and flushes keeps host registers, memory and table together equal to a plain register file |
| `CacheRequests.RefinedValue` | mupen64plus-rsp-paraLLEl/rsp_jit.cpp:1988-2270 | Each register is live in at most one entry, there its value is the low word and its tag truthful, elsewhere its value is in sr[] |
| `CacheRequests.FlushedMemory` | mupen64plus-rsp-paraLLEl/rsp_jit.cpp:2223-2236 | After flush_register_window sr[] holds every register |
| `CacheRequests.EvictsLeastRecent` | mupen64plus-rsp-paraLLEl/rsp_jit.cpp:2004-2027 | After any legal sequence of requests a register is given up only if all are taken, and then the one asked for the longest ago among those not locked |
| `RegisterCache.PickSucceeds` | mupen64plus-rsp-paraLLEl/rsp_jit.cpp:2018-2027 | With at most two registers locked in a table of three or more, find_register finds one |
| `RegisterCache.FindLive` | mupen64plus-rsp-paraLLEl/rsp_jit.cpp:1988-1994 | The first live entry of a register, or none |
| `RegisterCache.FindOldest` | mupen64plus-rsp-paraLLEl/rsp_jit.cpp:2004-2016 | The first of the oldest evictable entries |
| `RegisterCache.SimLoad` | mupen64plus-rsp-paraLLEl/rsp_jit.cpp:2046-2213 | Loading keeps the register file, leaves the register in the returned host register with the extension asked for, and changes no other host register |
| `RegisterCache.SimModify` | mupen64plus-rsp-paraLLEl/rsp_jit.cpp:2089-2113 | Claiming a register for writing changes no host register and no other register's value |
| `RegisterCache.SimWrite` | mupen64plus-rsp-paraLLEl/rsp_jit.cpp:2089-2113 | An operation that then computes into the host register assigns the MIPS register |
| `RegisterCache.SimImmediate` | mupen64plus-rsp-paraLLEl/rsp_jit.cpp:2038-2044 | immediate_mips_register assigns the constant |
| `RegisterCache.SimUnlock` | mupen64plus-rsp-paraLLEl/rsp_jit.cpp:2215-2221 | Unlocking keeps the register file |
| `RegisterCache.SimFlushWindow` | mupen64plus-rsp-paraLLEl/rsp_jit.cpp:2223-2236 | Flushing frees every entry and leaves every value in memory, host registers untouched |
| `RegisterCache.SimFlushCallerSave` | mupen64plus-rsp-paraLLEl/rsp_jit.cpp:2238-2251 | Flushing the registers a call may overwrite frees those entries and no other |
| `RegisterCache.SimFlushOne` | mupen64plus-rsp-paraLLEl/rsp_jit.cpp:2259-2270 | Flushing one register leaves its value in memory |
| `RegisterCacheObject.Cache.FindLiveMipsRegister` | mupen64plus-rsp-paraLLEl/rsp_jit.cpp:1988-1994 | The search loop over the table in place |
| `RegisterCacheObject.Cache.FindFreeRegister` | mupen64plus-rsp-paraLLEl/rsp_jit.cpp:1996-2002 | The search loop for a free entry |
| `RegisterCacheObject.Cache.FindOldestUnlockedRegister` | mupen64plus-rsp-paraLLEl/rsp_jit.cpp:2004-2016 | The loop that keeps the best candidate so far |
| `RegisterCacheObject.Cache.FindRegister` | mupen64plus-rsp-paraLLEl/rsp_jit.cpp:2018-2027 | Live, else free, else oldest, where its assertion holds |
| `RegisterCacheObject.Cache.WritebackRegister` | mupen64plus-rsp-paraLLEl/rsp_jit.cpp:2029-2036 | The new table and code, where its assertion holds |
| `RegisterCacheObject.Cache.LoadMipsRegister` | mupen64plus-rsp-paraLLEl/rsp_jit.cpp:2046-2213 | The three load methods on the table in place equal the function the refinement is about |
| `RegisterCacheObject.Cache.ModifyMipsRegister` | mupen64plus-rsp-paraLLEl/rsp_jit.cpp:2089-2113 | Likewise for modify_mips_register |
| `RegisterCacheObject.Cache.ImmediateMipsRegister` | mupen64plus-rsp-paraLLEl/rsp_jit.cpp:2038-2044 | Likewise for immediate_mips_register |
| `RegisterCacheObject.Cache.UnlockMipsRegister` | mupen64plus-rsp-paraLLEl/rsp_jit.cpp:2215-2221 | Likewise for unlock_mips_register |
| `RegisterCacheObject.Cache.FlushRegisterWindow` | mupen64plus-rsp-paraLLEl/rsp_jit.cpp:2223-2236 | Likewise for the flush loop |
| `RegisterCacheObject.Cache.FlushCallerSaveRegisters` | mupen64plus-rsp-paraLLEl/rsp_jit.cpp:2238-2251 | Likewise for the caller-save loop |
| `RegisterCacheObject.Cache.FlushMipsRegister` | mupen64plus-rsp-paraLLEl/rsp_jit.cpp:2259-2270 | Likewise for one register |
| `RegisterCacheObject.Cache.Reset` | mupen64plus-rsp-paraLLEl/rsp_jit.cpp:2253-2257 | An empty table |
| `StaticEnd.AnalyzeStaticEnd` | mupen64plus-rsp-paraLLEl/rsp_jit.cpp:109-232 | The scan with its running max_static_pc and early exits equals its recursive specification |
| `StaticEnd.StaticEndLocal` | mupen64plus-rsp-paraLLEl/rsp_jit.cpp:109-232 | The end lies after pc and within the window, and memories that agree on [pc, end) have the same end |
| `StaticEnd.StaticEndClosed` | mupen64plus-rsp-paraLLEl/rsp_jit.cpp:109-232 | The region ends at the window or with an unconditional transfer and its delay slot, and no conditional branch scanned jumps past its end inside the window |
| `StaticEnd.StaticEndTight` | mupen64plus-rsp-paraLLEl/rsp_jit.cpp:109-232 | ... and no later than it must: an unconditional transfer further inside has been jumped past by a branch scanned before it |
| `StaticEnd.MarkBlockEntries` | mupen64plus-rsp-paraLLEl/rsp_jit.cpp:1698-1757 | Exactly the instructions some word of the region branches to are flagged |
| `StaticEnd.FlowOfDecode` | mupen64plus-rsp-paraLLEl/rsp_jit.cpp:137-226 | The raw-word scans see exactly the direct branches the decoder sees, with the same target, its register jumps and its BREAK; only BGTZ $0 counts as a branch besides |
| `StaticEnd.DirectTargetIsEntry` | mupen64plus-rsp-paraLLEl/rsp_jit.cpp:1698-1757 | The target of every direct branch of the region is flagged |
| `RecompilerSystem.SystemCorrect` | mupen64plus-rsp-paraLLEl/rsp_jit.cpp:1920-1946 | The recompiler with its table over a mutable instruction memory: after any history of tasks set up by the CPU, runs, and DMA that rewrites the program, it stands where the interpreter of that memory stands, with the same memory, registers, program counter and mode, if no lookup met a hash collision and no run of that interpreter came to a double delay slot or landed as above |
| `RecompilerSystem.PoweredOn` | mupen64plus-rsp-paraLLEl/rsp_jit.hpp:125-133 | The constructor's empty tables, with any instruction memory and any CPUState, are a state such histories begin from |
| `RecompilerSystem.ServedCodeRuns` | mupen64plus-rsp-paraLLEl/parallel.cpp:58-92 | ... and shows what the interpreter shows after every instruction of the next run |
| `ServedRegions.ServedIsCompiled` | mupen64plus-rsp-paraLLEl/rsp_jit.cpp:448-469 | A run whose every entry is a lookup in the block table goes as on the regions of current memory |
| `BlockTable.LookupsMatchHash` | mupen64plus-rsp-paraLLEl/rsp_jit.cpp:448-469 | After any history of writes, DMA, invalidations and lookups that keeps to the protocol, get_jit_block returns the code of a region with the start and hash of the current one, collisions or not |
| `BlockTable.LookupsAreFresh` | mupen64plus-rsp-paraLLEl/rsp_jit.cpp:448-469 | ... and exactly what analysing and compiling current memory gives if no lookup found its slot empty and code for other words under its hash |
| `BlockHash.HashIsFnv1` | mupen64plus-rsp-paraLLEl/rsp_jit.cpp:69-81 | The hash of a region is FNV-1 of its start, its length and its words, in order |
| `BlockHash.OneWordTold` | mupen64plus-rsp-paraLLEl/rsp_jit.cpp:69-81 | Regions of one start and length that differ in exactly one word never have the same hash |
| `BlockHash.NearNoCollision` | mupen64plus-rsp-paraLLEl/rsp_jit.cpp:448-469 | So a lookup meets no collision if every region compiled at its start before has the length of the current one and differs from it in at most one word |
| `BlockHash.PatchesAreServed` | mupen64plus-rsp-paraLLEl/rsp_jit.cpp:448-469 | After any history that keeps to the protocol in which all lookups are such, get_jit_block returns exactly what compiling current memory gives, with nothing assumed of the hash |
| `BlockTable.HistoryGood` | mupen64plus-rsp-paraLLEl/rsp_jit.cpp:44-66 | The invariant of every history: unmarked blocks match cached_imem, exactly without collisions and up to its hash with them, and whatever differs from it is marked together with the block before |
| `BlockTable.CodeInvalidatedOk` | mupen64plus-rsp-paraLLEl/rsp_jit.cpp:51-66 | invalidate_code keeps every surviving block right, because regions span at most two code blocks |
| `BlockTable.ImemInvalidatedMarks` | mupen64plus-rsp-paraLLEl/rsp_jit.cpp:44-49 | invalidate_imem marks every code block that differs and its predecessor, and no other |
| `BlockTable.WrittenBetweenIsStale` | mupen64plus-rsp-paraLLEl/rsp_jit.cpp:44-66 | The order matters: a write between the comparison and the invalidation leaves a stale block that a later comparison does not find |
| `BlockTable.WriteKeepsMarks` | mupen64plus-rsp-paraLLEl/rsp_jit.cpp:44-66 | A word written between the two keeps the marks right if and only if it is the cached word, or its block and the one before are marked already |
| `BlockTable.WriteHarmless` | mupen64plus-rsp-paraLLEl/rsp_jit.cpp:51-66 | Then invalidate_code leaves table and memory in step |
| `BlockTable.WriteSeen` | mupen64plus-rsp-paraLLEl/rsp_jit.cpp:44-66 | cached_imem equals memory afterwards if and only if the word is the cached one or its own block was marked, so the next comparison misses exactly a write into a marked block |
| `BlockTable.WindowBounds` | mupen64plus-rsp-paraLLEl/rsp_jit.cpp:456-458 | The scan window ends at the end of the next code block and spans at most 128 words |
| `BlockTable.RegionLocal` | mupen64plus-rsp-paraLLEl/rsp_jit.cpp:1795-1884 | The code of a region depends on the words of the region alone |
| `BlockTable.CpuBlocks.InvalidateImem` | mupen64plus-rsp-paraLLEl/rsp_jit.cpp:44-49 | The comparison loop on the arrays |
| `BlockTable.CpuBlocks.InvalidateCode` | mupen64plus-rsp-paraLLEl/rsp_jit.cpp:51-66 | The clearing and copying loop on the arrays |
| `BlockTable.CpuBlocks.DmaWrite` | mupen64plus-rsp-paraLLEl/rsp/cp0.cpp:163-174 | A DMA word into instruction memory; the bits it sets are those of its code block and the one before |
| `BlockTable.CpuBlocks.GetJitBlock` | mupen64plus-rsp-paraLLEl/rsp_jit.cpp:448-469 | Table, then hash, then compile; the code returned and the new table |
| `WorkerPoolTheorems.BarrierExact` | mupen64plus-video-angrylion/parallel_al.cpp:59-82 | When run() has returned every worker has executed every task submitted, once each and in order, in every interleaving |
| `WorkerPoolTheorems.RunExecutesOnce` | mupen64plus-video-angrylion/parallel_al.cpp:59-82 | One run(task) adds exactly one execution of the task by each worker |
| `WorkerPoolTheorems.NoEarlyRound` | mupen64plus-video-angrylion/parallel_al.cpp:109-138 | A worker inside a task runs the task submitted last, having finished all earlier ones |
| `WorkerPoolTheorems.TaskStable` | mupen64plus-video-angrylion/parallel_al.cpp:73-78 | m_task is replaced only while no worker can call it before the bits are cleared again |
| `WorkerPoolTheorems.ShutdownClean` | mupen64plus-video-angrylion/parallel_al.cpp:42-57 | The destructor's wake-up makes workers leave without running another task |
| `WorkerPoolTheorems.NoLostWakeup` | mupen64plus-video-angrylion/parallel_al.cpp:120-149 | If all bits are set while the main thread sleeps, one worker still has its lock and notify ahead; no worker sleeps past the clearing of its bit |
| `WorkerPoolTheorems.NoDeadlock` | mupen64plus-video-angrylion/parallel_al.cpp:109-150 | Whenever the main thread is inside the pool some thread can step |
| `WorkerPoolTheorems.EveryCallReturns` | mupen64plus-video-angrylion/parallel_al.cpp:109-150 | Under every schedule, spurious wake-ups included, a bounded number of steps and three more for each such wake-up are possible before run() or the destructor has returned |
| `WorkerPool.StepKeepsInv` | mupen64plus-video-angrylion/parallel_al.cpp:99-150 | Every atomic step of every thread keeps the pool's invariant |
| `ReplayTheorems.EveryWorkerReplaysTheStream` | mupen64plus-video-angrylion/n64video.c:133-149 | In every interleaving of the main thread, the pool and the workers' loops over the shared slots: at every return from n64video_process_list each worker's executed history followed by the waiting slots is the decoded stream without its SYNC_FULLs |
| `ReplayTheorems.HazardSeparatesWorkers` | mupen64plus-video-angrylion/n64video.c:393-447 | A worker about to execute an image command that is hazardous after what it has executed finds every other worker through with all of that |
| `ReplayTheorems.SyncFullAlone` | mupen64plus-video-angrylion/n64video.c:453-459 | When SYNC_FULL is called on the main thread every worker has executed everything before it in the stream and none is executing |
| `ReplayTheorems.BufferStable` | mupen64plus-video-angrylion/n64video.c:133-149 | While any worker is in its loop no step writes a slot or moves the position |
| `ReplayTheorems.NoDeadlock` | mupen64plus-video-angrylion/n64video.c:140-149 | Unless the main thread is between words some thread can step |
| `ReplayProgress.EveryWordEnds` | mupen64plus-video-angrylion/n64video.c:133-149 | Under every schedule all threads together take at most a computed number of steps, each worker's unreplayed commands included, and three more for each spurious wake-up, before the main thread is between words again with every worker through |
| `ReplayMachine.StepKeepsInv` | mupen64plus-video-angrylion/n64video.c:133-149 | Every step of the combined system keeps its invariant: each worker has executed the finished batches and its own share of the current one |
| `CommandFront.AdvanceRest` | mupen64plus-video-angrylion/n64video.c:382-472 | No step of the main thread between two words changes what the stream comes to |
| `CommandFront.StoreRest` | mupen64plus-video-angrylion/n64video.c:329-361 | A word stored in its slot is a word fed to the pipeline |
| `ParallelReplay.BatchesAreStream` | mupen64plus-video-angrylion/n64video.c:453-468 | What the batches hold and what waits are together the stream without its SYNC_FULLs |
| `RdpCommands.ReplayIsStream` | mupen64plus-video-angrylion/n64video.c:382-472 | At every word, in direct mode and in parallel mode at every compatibility level, what was executed followed by what waits is the decoded stream in order; the buffer stays below 1024 commands and the decoder holds exactly the unfinished words |
| `RdpCommands.HazardsStartBatches` | mupen64plus-video-angrylion/n64video.c:393-452 | Over the whole stream, no command of a batch but its first is a hazard with the last image of either kind where it stands |
| `Pixels.PixelsFillExtent` | mupen64plus-video-angrylion/n64video.c:409-420 | Every byte of every pixel of a colour image of 8, 16 or 32-bit pixels, 240 rows of them, lies in the extent the barrier uses, and the last one ends it |
| `Pixels.NibbleExtent` | mupen64plus-video-angrylion/n64video.c:415-420 | Of 4-bit pixels, 240 rows of half the width rounded down |
| `Pixels.DepthExtent` | mupen64plus-video-angrylion/n64video.c:421-427 | A depth image is as large as the last colour image, or 320 by 240 of 16 bits |
| `Pixels.SharedPixels` | mupen64plus-video-angrylion/n64video.c:428-439 | A colour image that shares a byte of a pixel with the last one clashes with it if and only if its address or its extent is another, and then is a hazard |
| `Pixels.LayoutMissed` | mupen64plus-video-angrylion/n64video.c:435-437 | 320 pixels of 16 bits, then 640 of 8 bits at the same address: pixels are shared, the layout is another, and there is no barrier |
| `RdpCommands.CommandLength` | mupen64plus-video-angrylion/n64video/rdp.c:392-463 | Bits 24 to 29 of the first word are the command; its length in bytes: triangles 32, and 64, 64 and 16 more for shade, texture and depth, texture rectangles 16, all others 8 |
| `Retargets.ImagesEndBatches` | mupen64plus-video-angrylion/n64video.c:211-221 | At the medium and high levels no batch holds an image command before its last command: the buffered draws of a batch have one target |
| `Retargets.SharedBatchesOnlyReplaced` | mupen64plus-video-angrylion/n64video.c:393-452 | At every level, two image commands of one batch whose images overlap and differ have between them a command that replaces the first |
| `Retargets.MissedExactly` | mupen64plus-video-angrylion/n64video.c:427-451 | At the low level an image command comes to share a batch with an earlier one that it overlaps and differs from if and only if there is such a one in the buffer and the new image clashes with neither remembered image |
| `Retargets.OlderImageMissed` | mupen64plus-video-angrylion/n64video.c:427-451 | Three colour images of which it happens |
| `RdpProcessor.Processor.ProcessList` | mupen64plus-video-angrylion/n64video.c:275-486 | The loop over the list equals feeding its words one at a time, or does nothing |
| `RdpProcessor.WindowWord` | mupen64plus-video-angrylion/n64video.c:261-333 | Each word of a list is the overlay's inside the overlay, else from RDRAM if there is an overlay or the XBUS bit is clear, else from data memory wrapping at 4 KB |
| `RdpProcessor.ListsCutAnywhere` | mupen64plus-video-angrylion/n64video.c:343-348 | However a word stream is cut into successive lists, they leave what one list leaves |
| `RdpProcessor.Processor.DecodeStep` | mupen64plus-video-angrylion/n64video.c:313-482 | One iteration consumes at least one word and at most what the command lacks |
| `RdpProcessor.Processor.Complete` | mupen64plus-video-angrylion/n64video.c:361-481 | A complete command is dispatched as specified and the decoder is ready for the next |
| `RdpProcessor.Processor.CheckHazard` | mupen64plus-video-angrylion/n64video.c:408-439 | The loop over the two remembered images computes the hazard and the extent |
| `RdpProcessor.Processor.Barrier` | mupen64plus-video-angrylion/n64video.c:440-447 | The flush and the copy to slot 0 keep the command's words |
| `RdpProcessor.Processor.RunBuffered` | mupen64plus-video-angrylion/n64video.c:133-138 | A worker's loop over the buffer runs the queued commands in order |
| `RdpProcessor.Processor.constructor` | mupen64plus-video-angrylion/n64video.c:211-228 | The falling-through switch builds the sync table of the level: 0x29 always, 0x3e and 0x3f from medium on, 0x3d at high |
| `ImageConvert.UnswapCopyWrap` | Graphics/image_convert.h:143-192 | The loops are the three phases, leading bytes, words and trailing bytes, for buffers of every size, and equal the byte-by-byte copy wherever the phases keep its order |
| `ImageConvert.CopyExact` | Graphics/image_convert.h:143-192 | They do, whatever the buffers hold, if and only if the buffer has four bytes or more, no whole word is copied, or the trailing bytes cover the buffer; a buffer of at least numBytes always does |
| `ImageConvert.CopiedByte` | Graphics/image_convert.h:143-192 | While the copy does not lap itself, byte k is at (d + k) mod size and comes from the byte at s + k counted backwards in its word |
| `ImageConvert.CopiedElsewhere` | Graphics/image_convert.h:143-192 | Every other byte is unchanged |
| `ImageConvert.DWordInterleaveWrap` | Graphics/image_convert.h:194-204 | The exchange loop in place |
| `ImageConvert.InterleavedAt` | Graphics/image_convert.h:194-204 | While the lines do not lap the buffer, each of their elements changes places with the other one of its line |
| `ImageConvert.InterleavedElsewhere` | Graphics/image_convert.h:194-204 | Nothing else moves |
| `ImageConvert.InterleaveTwice` | Graphics/image_convert.h:194-204 | Exchanging twice restores the buffer, for every count, wrapped or not |
| `SpDma.SpDmaRead` | mupen64plus-rsp-cxd4/su.c:264-302 | By byte address: row r, column i of the transfer moves RDRAM byte r * stride + dram + 8 i modulo 16 MB, zero from 8 MB on, to SP byte 8 r * line + cache + 8 i modulo 8 KB, addresses rounded down to units; where the transfer laps itself the first lap stays, and the rest is unchanged |
| `SpDma.SpDmaWrite` | mupen64plus-rsp-cxd4/su.c:303-339 | By the same byte addresses each unit of the transfer reaches its place in RDRAM and nothing else changes |
| `SpDma.DramDistinct` | mupen64plus-rsp-cxd4/su.c:325-332 | No RDRAM unit is touched twice by one transfer, even where the skip is not a multiple of 8 |
| `SpDma.RowGap` | mupen64plus-rsp-cxd4/su.c:286-295 | Rows follow one another without overlap |
| `SpDma.WriteThenRead` | mupen64plus-rsp-cxd4/su.c:264-339 | A write followed by a read with the same registers restores SP memory if and only if every unit moved lies within 8 MiB or was zero |
| `SpDma.LengthFields` | mupen64plus-rsp-cxd4/su.c:102-113 | The loop bounds read from the masked length register |
| `PlaneSolver.PlaneRecovered` | mupen64plus-video-angrylion/rdp_emit.c:157-173 | On the quarter-pixel grid with nonzero area a plane of integer s15.16 slopes is recovered exactly, if and only if the slopes are 32-bit values |
| `PlaneSolver.EdgeSlopeRecovered` | mupen64plus-video-angrylion/rdp_emit.c:170-172 | ... and so is its slope along the major edge |
| `PlaneSolver.SolvePlaneTruncates` | mupen64plus-video-angrylion/rdp_emit.c:157-171 | In general the slopes are the true quotients truncated toward zero: the shifts by 8 and 16 lose nothing |
| `PlaneSolver.AreaExact` | mupen64plus-video-angrylion/rdp_emit.c:144-146 | The shift of the signed area loses nothing on the grid |
| `PlaneSolver.NumeratorsFit` | mupen64plus-video-angrylion/rdp_emit.c:162-169 | No 64-bit intermediate overflows for vertices in S13.2 storage |
| `PlaneSolver.EdgeThroughVertices` | mupen64plus-video-angrylion/rdp_emit.c:111-142 | A walked edge meets its top vertex to less than 2^-16 of a pixel and drifts by less than that for every row; it passes exactly through both vertices, as the comment says of all, if and only if neither the slope nor the walk back is rounded |
| `PlaneSolver.EdgeMissesVertex` | mupen64plus-video-angrylion/rdp_emit.c:116-124 | An edge one pixel wide and three high misses its lower vertex |
| `PlaneSolver.DepthRecovered` | mupen64plus-video-angrylion/rdp_emit.c:281-312 | Both ways of solving the depth plane give 32 times its slopes, one if and only if that is a 32-bit value, the other if and only if it does not saturate |
| `PlaneSolver.FarDepth` | mupen64plus-video-angrylion/rdp_emit.c:291-311 | With a vertex out of range the slopes of the unscaled plane, the one along the edge included, are scaled by 32 and held within 31 bits |
| `PlaneSolver.Degenerate` | mupen64plus-video-angrylion/rdp_emit.c:112-114 | A flat edge has slope zero, and a triangle without area slopes zero |
| `PlaneSolver.OrderIndependent` | mupen64plus-video-angrylion/rdp_emit.c:157-173 | The recovered slopes do not depend on the order of the vertices or the winding |
| `PlaneSolver.SortByY` | mupen64plus-video-angrylion/rdp_emit.c:95-99 | The exchange loops sort three vertices by y |
| `SpriteBands.RowHoldsTexels` | mupen64plus-video-angrylion/rdp_emit_f3d.c:273-275 | A row is as many whole bytes as its texels of 4, 8 or 16 bits need |
| `SpriteBands.EmitBands` | mupen64plus-video-angrylion/rdp_emit_f3d.c:313-364 | The band loop emits the bands of the sprite |
| `SpriteBands.EmitSprite` | mupen64plus-video-angrylion/rdp_emit_f3d.c:289-313 | One rectangle without overlap, unless a row of texels fits 2048 bytes and all rows do not: then the bands |
| `SpriteBands.OneBandPlace` | mupen64plus-video-angrylion/rdp_emit_f3d.c:289-312 | The one rectangle loads the image's rows, is drawn from yh for as many quarter pixels as the step makes of them, and starts at its first row, or mirrored at its last |
| `SpriteBands.LoadsFit` | mupen64plus-video-angrylion/rdp_emit_f3d.c:273-318 | Every load of a sprite, split or not, fits 2048 bytes if and only if two of its rows of texels do, or the one row of an image that has no second |
| `SpriteBands.OneBandFits` | mupen64plus-video-angrylion/rdp_emit_f3d.c:276-292 | An image loaded whole fits if and only if one row does or there are none: a wider row is never split |
| `SpriteBands.BandsTileScreen` | mupen64plus-video-angrylion/rdp_emit_f3d.c:339-341 | The screen bands abut and cover exactly the quarter pixels that the step makes of all rows, rounded down |
| `SpriteBands.BandsCoverImage` | mupen64plus-video-angrylion/rdp_emit_f3d.c:335-338 | Unmirrored, neighbouring bands share exactly one row and together load rows s1 to s1 + disph |
| `SpriteBands.MirroredBands` | mupen64plus-video-angrylion/rdp_emit_f3d.c:343-346 | Mirrored, they descend from row disph to row 0, the image's rows if and only if it starts at row 0 |
| `SpriteBands.BandsFit` | mupen64plus-video-angrylion/rdp_emit_f3d.c:276-277 | No band loads more than max_rows rows if and only if at least two rows fit |
| `SpriteBands.BandBytesFit` | mupen64plus-video-angrylion/rdp_emit_f3d.c:273-277 | Then a band's bytes fit the low half of TMEM |
| `SpriteBands.BandsFull` | mupen64plus-video-angrylion/rdp_emit_f3d.c:319-338 | ... and bands are no smaller than they must be: but for the last, another row would not fit |
| `SpriteBands.OverlapTooLarge` | mupen64plus-video-angrylion/rdp_emit_f3d.c:313-318 | When only one row fits, the overlap row does not |
| `SpriteBands.BandHeightLeast` | mupen64plus-video-angrylion/rdp_emit_f3d.c:321-323 | A band is the fewest whole pixels high that show the rows to the next one |
| `SpriteBands.TextureDrift` | mupen64plus-video-angrylion/rdp_emit_f3d.c:320-342 | The accumulated T start lags the true coordinate by less than one 32nd of a texel a band and never leads it |
| `SpriteBands.MirroredDrift` | mupen64plus-video-angrylion/rdp_emit_f3d.c:327-346 | Mirrored, the T start counts down from the far edge and is never behind the true coordinate, nor ahead of it by a 32nd of a texel a band |
| `SpriteBands.MirroredStart` | mupen64plus-video-angrylion/rdp_emit_f3d.c:343-346 | A mirrored band's T start is negative exactly when the bands before it have stepped down past the rows it loads |
| `SpriteBands.ExactStart` | mupen64plus-video-angrylion/rdp_emit_f3d.c:332-346 | It is positive where a band's whole pixels are whole rows |
| `SpriteBands.NegativeStart` | mupen64plus-video-angrylion/rdp_emit_f3d.c:343-362 | A band that is drawn can start below zero |
| `SpriteBands.EmitStrips` | mupen64plus-video-angrylion/rdp_emit_f3d.c:165-218 | The strip loop of direct-colour images |
| `SpriteBands.StripsTile` | mupen64plus-video-angrylion/rdp_emit_f3d.c:185-192 | The strips partition the image's rows, abut on the screen, and each starts where the step puts its first row |
| `SpriteBands.StripBytesFit` | mupen64plus-video-angrylion/rdp_emit_f3d.c:167-169 | A strip's bytes fit TMEM if and only if one row does, and where rows are left over another would not have fitted |

## Left out

- Branches in delay slots: `jit_handle_impossible_delay_slot` and the second-branch case of the latent delay slot are dead ends of the modelled machine, proved unreachable in regions that hold none.
- GNU Lightning, machine-code encoding, code memory and calling conventions: a call clobbers the first registers and keeps the others, and that is all.
- What COP0, COP2 and vector routines compute: each is a function of its operand, data memory and the coprocessor state.
- Tracing and disassembly paths of the recompiler, and 32-bit hosts, where the extension tags do nothing.
- `debug_rsp.cpp`, `llvm_jit.cpp` and `debug_jit.cpp`.
- The C++ memory model in the worker pool: atomics are sequentially consistent.
- `Parallel`'s exception for work submitted after shutdown: submitting is disabled then.
- What an RDP command draws, and `rdp_pipeline_crashed` being set while a list is processed: it is an input of each list.
- The depth-buffer address passed on to the VI, and the command dump.
- 32-bit wrap-around of a kernel's intermediate sums where the inputs' own widths rule it out, and differences of attributes or coordinates beyond 32 bits, which C leaves undefined.
- Buffer masks that are not a power of two less one in `image_convert.h`.
- `parallel_run` of other tasks touching the command buffer: none does.
- The packing of edge words, attributes and depth into `ew`, the start values of attributes, and the texture emitters of `rdp_emit.c`.
- The words of the individual RDP commands a sprite band stands for.
- The SP status, busy flags and the gap message of SP DMA.
- What runs do after a `BLEZ $0` was taken wrongly.
- `CPU::run`'s loop re-entering code after any other mode than those it returns: no modelled run depends on it.
- BlockTable.LookupsAreFresh: assumes that no lookup finds its slot empty and, under the hash of the current words, code compiled from others at the same address; LookupsMatchHash holds without that.
- RecompilerSystem.SystemCorrect: histories in which a lookup meets such a collision, and runs that come to a branch in a delay slot, are not covered.
- RecompilerSystem.ServedCodeRuns: the same two cases are not covered for the run in progress.
- ServedRegions.ServedIsCompiled: runs in which a lookup meets such a collision are not covered.
