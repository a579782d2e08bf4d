# A model of Buzzer, the eBPF fuzzer

Buzzer makes up random eBPF and classic BPF programs, encodes them the way the kernel wants them, loads them, and
decides from the contents of a map whether the verifier was right to accept what it accepted. This project models the
parts of it that are plain logic, and proves what they promise for every random stream, every answer of the kernel and
every run.

What is proved, in the order of the files:

* **Encoding** (`bits.dfy`, `instruction.dfy`, `encoding.dfy`). `EncodeInstructions` against the decoder of sections 3.1
  and 3.2 of RFC 9669: the bytes decode to the program, so encoding is injective; likewise the func_info buffer.
* **Execution** (`machine.dfy`, `controlflow.dfy`). An eBPF machine that counts in instructions, the unit in which the
  generators choose jump offsets, and one that fetches from the bytes and counts in 64-bit slots, the unit of section 4.3
  of RFC 9669. The second simulates the first step for step on every program whose jumps cross narrow instructions only,
  and a forward jump agrees in both units exactly then. Closed programs have closed bytes: all paths go forward, from
  instruction to instruction, and end at an Exit.
* **Generators and mutation** (`random.dfy`, `generators.dfy`, `slices.dfy`, `mutation.dfy`, `coverage_program.dfy`). Each
  generator is a function of the draws, and exactly the instructions of a stated set come out, each of them on some
  draws; the same for mutations: every operation and every place. Go slices are array, offset, length and capacity, and
  `append` writes in place when there is room. The middle insertion of `handleAddInstruction` overwrites an element before
  it reads the tail, so it does not insert but doubles; jumps stay inside the body all the same, up to bodies of 2^15
  instructions and not beyond.
* **The coverage strategy** (`priority_queue.dfy`, `coverage_sets.dfy`, `coverage_strategy.dfy`). The heap is a priority
  queue on multisets. Over whole runs the draws are conserved (26 per pushed trace, taken or still allowed), the tables
  are the union of what the pushed traces covered, and no stored program changes.
* **The control loop** (`protocol.dfy`, `control.dfy`). Every call across the kernel boundary and every callback goes
  into a log; a rule book says which log is lawful. The kernel's answers are a script, and what a round does is determined
  by the draws and that script: the program that was generated is the one that is submitted, run and judged, and an error
  is always the draws' or the kernel's. Every run of the loop over the coverage strategy keeps the rules, whatever its
  outcome: each program descriptor is closed exactly once and after its use, only the map stays open, every submitted
  program names that map, and the bytes of every submitted program are closed.
* **Whole runs and their executions** (`executions.dfy`, `fuzzing_verdicts.dfy`). If each look at the map returns what
  running the submitted bytes left there, or the fresh map where the run did not take place, the fuzzer is done exactly
  when it has caught a program that came to its footer with a nonzero register under test, or when an execution failed.
* **The oracle** (`memory.dfy`, `instruction_effects.dfy`, `oracle.dfy`, `coverage_oracle.dfy`, `coverage_head.dfy`,
  `pointer_arithmetic.dfy`, `pointer_run.dfy`). With byte-level map memory: the one-element check lets exactly the value 0 through, the
  two-element check 0 and -14..-10, for whole programs run from their bytes. The control loop over the pointer-arithmetic strategy is lawful exactly if that
  strategy starts with a map of its own or with -1, and each of its verdicts is bad exactly on an execution whose footer
  saw a value that the two elements show.
* **The loop strategy** (`loop_strategy.dfy`, `loop_oracle.dfy`, `loop_run.dfy`). The function pointer and the func_info
  entry both name the first slot of the second function, no jump leaves its function, and the BTF section parses to the
  strategy's types. Main calls the helper with the arguments it should, and its oracle lets exactly the words 0 and 8 or
  more through; the callback sets up its registers, writes one byte within 63 bytes below its context per context write,
  and returns 0 from every state.
* **Coverage manager, classic BPF, BTF, metrics** (`strings.dfy`, `coverage_manager.dfy`, `cbpf.dfy`, `btf.dfy`,
  `metrics.dfy`). A cache that agrees with the slow lookup, through errors and panics; filters that cannot run past their return despite three casts; a BTF parser
  that recovers what was serialized; a queue between two threads that loses and reorders nothing.

Conventions. The random source is a finite tape of arbitrary draws; a generator that outlives its tape returns `None`.
The kernel is an object that reads its answers off an arbitrary script, but hands out only descriptors that are not open. Integers are unbounded, and
every Go conversion is written out (`I8`, `I16`, `I32`, `% 2^k`). Ghost fields (`snapshot`, `pushed`, `draws`, `order`,
`log`) record history and steer nothing.

Properties that turned out to be false of the code, each with the exact condition under which it holds:

* The int16 cast of a jump offset (pkg/ebpf/instruction_generators.go:69) keeps every draw exactly when the bound is at
  most 32767, so mutation keeps every closed body closed exactly when the body has at most 32768 instructions
  (`Generators.OffsetCastIsFaithful`, `Mutations.ClosureBoundIsExact`).
* The int8 cast of a classic BPF offset keeps every draw exactly when the bound is at most 255; beyond that the jump gets
  shorter, never longer (`Cbpf.NarrowingIsFaithful`, `Cbpf.NarrowingIsModulo`).
* The kernel reads back a BTF type info exactly when `KindFlag` is clear. The comment in pkg/ebpf/btf.go:46 puts the flag
  at bit 31, the code at line 54 at bit 28, which is part of the kind (`Btf.TypeInfoRoundTripExactly`).
* The two-element oracle misses the displacements -14..-10: the misplaced constant then makes both elements equal
  (`PointerArithmeticStrategy.PointerOracleIsExact`). The loop strategy's oracle misses every displacement of 8 or more:
  it looks at the element that the pointer has left by then (`LoopOracle.LoopVerdictIsExact`).
* The per-file line index has one entry per cached address exactly as long as no call reaches the line of the same new,
  resolvable address twice; lines behind the first one that cannot be handled are not reached
  (`CoverageManagers.CoverageManager.IndexAgreesExactly`, `CoverageManagers.CoverageManager.ProcessCoverageAddresses`).
* `LdMapElement` points R2 where its caller says exactly when keyPtr is not R1, or R1 already holds the map
  (`InstructionEffects.LdMapElementSetsUp`).
* A processing step panics exactly on an invalid result whose non-empty log has fewer than two line breaks, or when the
  first line that cannot be handled in the answer about its new addresses has no colon in the last component of its first
  word, or no address left to belong to (`MetricsUnit.PanicsExactly`, `CoverageManagers.StopsExactly`,
  `CoverageManagers.NoColonExactly`). A source directory with a space in its name is enough
  (`CoverageManagers.SpaceHidesColon`).
* The pointer-arithmetic strategy never asked for the descriptor it starts with, the zero of a fresh struct, and closes it
  in its first round. For every initial descriptor, kernel and stream of draws the history is lawful exactly if nothing
  was called at all or that descriptor was the fuzzer's map or -1; its approvals are about accepted programs exactly if
  none was refused (`PointerRuns.PointerControl.RunFuzzer`, `PointerRuns.FuzzPointers`).
* The loop strategy makes its new map before it closes the number in its field. Before any round, some answer of the kernel
  makes it submit a program whose map is already closed exactly if the field names a number that is not open; that number
  is the answer (`LoopStrategy.MapSurvivesExactly`, `LoopRuns.LosesExactly`). A field that is -1 or open stays so, so from
  the first map that survives on, all do (`LoopRuns.LoopControl.RunFuzzer`); a round that loses its map leaves a field from
  which the next can lose its own.
* The coverage strategy calls an execution that did not take place an unexpected result and ends: the reply of a failed run
  carries no error, and the fresh map holds zero (`FuzzingVerdicts.JudgedRight`). The pointer-arithmetic strategy passes it.
* The head of a coverage program is said to initialize all stack locations from -8 to -512
  (pkg/strategies/coverage_based.go:32-33). It initializes every byte of the frame but the four from -8 to -5: the loop
  starts at -16, and the key takes -4 to -1 (`CoverageHead.HeadInitializes`).

Where comments and code disagree, as on the BTF flag and the stack, the code is followed.

## Model

| member | source | states |
|---|---|---|
| `Encoding.EncodeInstructions` | pkg/ebpf/encoding_functions.go:65-101 | Fails exactly when some instruction, or a pseudo instruction hanging off it, has no opcode; otherwise both buffers are the concatenation over all functions in order. |
| `Encoding.EncodeInstruction` | pkg/ebpf/encoding_functions.go:105-165 | Fails exactly if there is no opcode somewhere in the chain of pseudo instructions; otherwise gives one word, or two for an instruction with a pseudo value. |
| `Encoding.EncodedWords` | pkg/ebpf/encoding_functions.go:153-163 | The words are that of the instruction and the first word of its pseudo instruction, however long the chain behind it. |
| `Encoding.OpcodeLayout` | pkg/ebpf/encoding_functions.go:33-61 | The masked and ored opcode byte of a well-formed opcode is the sum of its fields, and the RFC decoder reads the same opcode back. |
| `Encoding.WordLayout` | pkg/ebpf/encoding_functions.go:137-151 | The shifted and ored 64-bit word places opcode, registers, 16-bit offset and 32-bit immediate in disjoint bit ranges, negative values in two's complement. |
| `Encoding.FetchRoundTrip` | pkg/ebpf/encoding_functions.go:105-165 | Wherever the bytes of a well-formed instruction stand on a slot boundary, the decoder fetches that instruction, wide or narrow. |
| `Encoding.FetchEncoded` | pkg/ebpf/encoding_functions.go:65-101 | Fetching an encoded program at the slot of instruction k gives instruction k. |
| `Encoding.ProgramRoundTrip` | pkg/ebpf/encoding_functions.go:65-165 | For every well-formed program: decoding the bytes gives back the program, and there are eight bytes per slot. |
| `Encoding.EncodingInjective` | pkg/ebpf/encoding_functions.go:65-165 | Two well-formed programs with the same bytes are the same program. |
| `Encoding.FuncInfoRoundTrip` | pkg/ebpf/encoding_functions.go:84-97 | The func_info bytes decode to the (offset, type) pairs of the functions that carry one, in order. |
| `Instructions.SlotsBetween` | pkg/ebpf/encoding_functions.go:153-163 | Slot distance equals instruction distance between two places exactly when no instruction between them is wide. |
| `Machine.JumpAgreesExactly` | pkg/ebpf/instruction_generators.go:46-77 | A forward jump counted in instructions and the same offset counted in slots reach the same instruction exactly when no wide instruction is crossed. |
| `Machine.StepSimulates` | pkg/ebpf/encoding_functions.go:65-165 | One step on the bytes by slot does what one step on the list by index does, and keeps the counters together, if the instruction executed is no jump across a wide one. |
| `Machine.SlotExecutionSimulates` | pkg/ebpf/encoding_functions.go:65-165 | The same for runs of any length, in any state, with any helper functions. |
| `Machine.SlotExecutionSimulatesWithin` | pkg/ebpf/encoding_functions.go:65-165 | The same as long as the run stays in a part whose jumps agree. |
| `ControlFlow.ClosedEdges` | pkg/strategies/coverage_based.go:138-243 | In the bytes of a closed program, only Exit has no successor, and every edge leads to a later instruction start and not past the barrier. |
| `ControlFlow.PathsAreClosed` | pkg/strategies/coverage_based.go:138-243 | Every path through the bytes visits instruction starts in increasing order, does not skip the footer's first instruction, has at most slot-count steps and can stop only at an Exit. |
| `ControlFlow.EveryRunHalts` | pkg/strategies/coverage_based.go:195-243 | Every execution of the bytes of a closed program halts within slot-count steps. |
| `ControlFlow.SegmentsClose` | pkg/strategies/coverage_based.go:221-243 | Code whose jumps stay in it, followed by a footer that ends in Exit, is closed with the footer's start as barrier. |
| `Random.Rng.RandRange` | pkg/rand/rand.go:59-61 | The begin plus the draw modulo the size of the range; requires a non-empty range, which every caller in the model meets. |
| `Random.RangeReached` | pkg/rand/rand.go:59-61 | Every value of the range is drawn on some stream. |
| `Random.Rng.RandInt` | pkg/rand/rand.go:79-90 | A 64-bit value, read off the stream. |
| `Random.Rng.OneOf` | pkg/rand/rand.go:63-66 | True exactly on the draws divisible by n: one residue in n. |
| `Generators.GenerateImmAlu` | pkg/ebpf/instruction_generators.go:209-226 | Follows the draws: the immediate is the drawn int32, reduced by Go's signed remainder and a sign flip for a shift, and zero for a negation. |
| `Generators.GenerateRegAlu` | pkg/ebpf/instruction_generators.go:228-236 | Follows the draws: register first, then redraws while the operation is a negation. |
| `Generators.RandomAluInstruction` | pkg/ebpf/instruction_generators.go:24-44 | Follows the draws, in the order of the source. |
| `Generators.AluIsRandom` | pkg/ebpf/instruction_generators.go:24-44 | Whatever the draws: a narrow, well-formed ALU instruction on R0..R9, no negation with a register source, immediate shifts below the operand width. |
| `Generators.AluReached` | pkg/ebpf/instruction_generators.go:24-44 | Every such instruction is generated on some draws. |
| `Generators.RandomJmpInstruction` | pkg/ebpf/instruction_generators.go:49-77 | Follows the draws, redrawing Exit, Call and JA. |
| `Generators.JmpIsRandom` | pkg/ebpf/instruction_generators.go:49-77 | Whatever the draws: a conditional jump of either width whose offset is the int16 cast of a number from 1..maxOffset. |
| `Generators.JmpReached` | pkg/ebpf/instruction_generators.go:49-77 | Every such jump is generated on some draws. |
| `Generators.RandomOffset` | pkg/ebpf/instruction_generators.go:110-129 | Follows the draws; the walk down ends at the multiple of the access width at or below the negated magnitude. |
| `Generators.OffsetIsOnStack` | pkg/ebpf/instruction_generators.go:110-129 | The offset is aligned and the whole access lies in [R10-512, R10); a single byte is never taken from its very end. |
| `Generators.OffsetReached` | pkg/ebpf/instruction_generators.go:110-129 | Every such offset is drawn. |
| `Generators.RandomStoreInstruction` | pkg/ebpf/instruction_generators.go:163-177 | Follows the draws. |
| `Generators.RandomLoadInstruction` | pkg/ebpf/instruction_generators.go:179-184 | Follows the draws. |
| `Generators.RandomAtomicInstruction` | pkg/ebpf/instruction_generators.go:145-161 | Follows the draws. |
| `Generators.RandomMemInstruction` | pkg/ebpf/instruction_generators.go:132-143 | Follows the draws to one of the three. |
| `Generators.StoreIsRandom` | pkg/ebpf/instruction_generators.go:163-177 | A well-formed store of a constant or of R0..R9 to an aligned place on the stack. |
| `Generators.LoadIsRandom` | pkg/ebpf/instruction_generators.go:179-184 | A well-formed load from an aligned place on the stack into R0..R9. |
| `Generators.AtomicIsRandom` | pkg/ebpf/instruction_generators.go:145-161 | Only word and double-word sizes, and only the simple operations of section 5.3 of RFC 9669. |
| `Generators.MemReached` | pkg/ebpf/instruction_generators.go:132-184 | Every such store, load and atomic is generated on some draws. |
| `Generators.NewRandomInstruction` | pkg/strategies/coverage_based.go:121-136 | Follows the draws to one of the three kinds; no jump when maxJmp is 0. |
| `Generators.InstructionsExactly` | pkg/strategies/coverage_based.go:121-136 | The random instructions for a bound are exactly those that come out on some draws. |
| `Generators.OffsetCastIsFaithful` | pkg/ebpf/instruction_generators.go:69 | The cast keeps every draw from 1..maxOffset exactly when maxOffset is at most 32767. |
| `Generators.RandomJmpForward` | pkg/ebpf/instruction_generators.go:46-77 | Within that bound the jump goes forward by 1..maxOffset. |
| `Generators.AlignmentForSize` | pkg/ebpf/instruction_generators.go:94-108 | The alignment is the number of bytes the machine accesses for that size. |
| `Generators.RandomInstructionsAreNarrow` | pkg/ebpf/instruction_generators.go:24-236 | Whatever the generators can produce is narrow, well formed, executable in every state and no Exit; the only jumps are the bounded ones. |
| `GoSlices.Append` | pkg/strategies/coverage_based.go:138-192 | Go's append: with capacity the array is overwritten behind the slice and nowhere else; without, the elements move to a new array and the old one is untouched. |
| `GoSlices.DuplicateProgram` | pkg/strategies/coverage_based.go:111-119 | A deep copy: same messages, a new array and new messages only, none shared with the first. |
| `Mutations.HandleAddInstruction` | pkg/strategies/coverage_based.go:138-162 | For every capacity: the draw modulo length plus one decides between front, end and the place in the middle; the new instruction has the jump bound of that place; nothing in front of the body is written. |
| `Mutations.InsertInMiddle` | pkg/strategies/coverage_based.go:159-160 | The two appends give prefix, the new instruction twice, and the old tail without its first element. |
| `Mutations.HandleModifyInstruction` | pkg/strategies/coverage_based.go:164-173 | Replaces, in place, the element that the draw modulo length points at, with the jump bound of that place; adds one to an empty body. |
| `Mutations.MutateProgram` | pkg/strategies/coverage_based.go:175-192 | The head is unchanged, the body is mutated once, by the operation, place and instruction that the draws decide on; all writes go to the program's own array or a new one. |
| `Mutations.MutationsExactly` | pkg/strategies/coverage_based.go:138-192 | The allowed mutations of a body are exactly those that happen on some draws: every operation, every place, every instruction the place admits. |
| `Mutations.MutationKeepsClosure` | pkg/strategies/coverage_based.go:138-192 | If every jump of a body of at most 32768 instructions lands inside it or right behind it, the same holds after any mutation, the doubled instruction included. |
| `Mutations.ClosureBoundIsExact` | pkg/strategies/coverage_based.go:138-192 | Mutation keeps all closed bodies of a length closed exactly when that length is at most 32768. |
| `PriorityQueues.PriorityQueue.Push` | pkg/strategies/heap.go:33-58 | Adds one trace to the multiset and restores heap order. |
| `PriorityQueues.PriorityQueue.Pop` | pkg/strategies/heap.go:39-65 | Nil exactly when empty; otherwise removes one trace of largest coverage and keeps all others in heap order. |
| `PriorityQueues.PriorityQueue.Up` | pkg/strategies/heap.go:24-37 | Sift-up repairs the one bad edge above the new leaf and permutes. |
| `PriorityQueues.PriorityQueue.Down` | pkg/strategies/heap.go:24-47 | Sift-down repairs the root among the first n, permutes them and leaves the rest alone. |
| `PriorityQueues.SwapUp` | pkg/strategies/heap.go:24-31 | A sift-up swap moves the only bad edge to the parent. |
| `PriorityQueues.SwapDown` | pkg/strategies/heap.go:24-31 | A swap with the larger child moves the bad edges below that child. |
| `PriorityQueues.RootIsLargest` | pkg/strategies/heap.go:24-26 | In heap order no trace covers more than the first. |
| `CoverageSets.Deduplicate` | ebpf_ffi/ffi.cc:91-99 | Every sampled address once, in order of first appearance, none lost or invented. |
| `CoverageSets.ComputeFingerprint` | pkg/strategies/coverage_based.go:275-278 | The loop computes the xor of all addresses. |
| `CoverageSets.FingerprintPermutes` | pkg/strategies/coverage_based.go:275-278 | The fingerprint does not depend on the order. |
| `CoverageSets.FingerprintOfSet` | pkg/strategies/coverage_based.go:275-278 | After de-duplication, samples with the same set of addresses have the same fingerprint. |
| `CoverageSets.RepeatedHitsCancel` | pkg/strategies/coverage_based.go:275-278 | Without de-duplication two hits of one address vanish from the fingerprint. |
| `CoverageSets.FingerprintParity` | pkg/strategies/coverage_based.go:275-278 | Each bit of the fingerprint is the parity of the number of addresses that have it. |
| `CoveragePrograms.DefaultProgIsGood` | pkg/strategies/coverage_based.go:30-56 | The default program satisfies the invariant of coverage programs. |
| `CoveragePrograms.MutationKeepsCoverageProgram` | pkg/strategies/coverage_based.go:175-192 | Fixed head, generated body, closed jumps up to 32768 instructions: kept by every mutation. |
| `CoveragePrograms.PatchKeepsCoverageProgram` | pkg/strategies/coverage_based.go:227 | The first instruction is the map load, and writing any descriptor into it keeps the invariant. |
| `CoveragePrograms.EmittedIsClosed` | pkg/strategies/coverage_based.go:221-243 | Head, body and footer together are closed with the footer as barrier, whatever widths the random constants of the head need. |
| `CoverageStrategy.CoverageBased.constructor` | pkg/strategies/coverage_based.go:30-67 | Builds the default program and starts with empty queue and tables and no map; all invariants hold. |
| `CoverageStrategy.CoverageBased.PopAndRequeue` | pkg/strategies/coverage_based.go:204-209 | Draws a trace of largest coverage; it stays queued exactly while it has been used fewer than 25 times; draws plus remaining budget stay 26 per push. |
| `CoverageStrategy.CoverageBased.PrepareProgram` | pkg/strategies/coverage_based.go:199-212 | The mutation that the draws decide on, made on a deep copy of the default program or of one that covers most; nothing stored is written. |
| `CoverageStrategy.CoverageBased.GenerateProgram` | pkg/strategies/coverage_based.go:195-243 | From draws and kernel answer: without enough draws for the mutation nothing happens; otherwise the old map is closed, a new one asked for, and what is emitted is the mutated source with the new descriptor in its first load and the footer for the register drawn last; queue accounts, tables and stored programs are kept. |
| `CoverageStrategy.CoverageBased.RecordAddresses` | pkg/strategies/coverage_based.go:261-270 | The table grows by exactly the addresses, and novelty is reported exactly when one was missing. |
| `CoverageStrategy.CoverageBased.PushTrace` | pkg/strategies/coverage_based.go:287-296 | The last program joins the queue with its fingerprint, size and zero uses. |
| `CoverageStrategy.CoverageBased.OnVerifyDone` | pkg/strategies/coverage_based.go:248-300 | Proceeds and queues exactly on a valid result with coverage that has a new address or a new fingerprint; the tables are then the old ones plus this result, else unchanged. |
| `CoverageStrategy.CoverageBased.OnExecuteDone` | pkg/strategies/coverage_based.go:304-309 | True exactly when element 0 is 0xCAFE, and fuzzing ends exactly on false; a missing element is an index panic. |
| `CoverageStrategy.BudgetPermutes` | pkg/strategies/coverage_based.go:204-209 | The remaining budget of a queue does not depend on its order. |
| `CoverageStrategy.TablesGrow` | pkg/strategies/coverage_based.go:261-296 | A push goes with growth of a table, so pushes never exceed the sum of the table sizes. |
| `CoverageStrategy.CoverageBased.DrawsAreBounded` | pkg/strategies/coverage_based.go:195-299 | In every reachable state: at most 26 draws per trace, and at most 26 times the sum of both table sizes in all. |
| `Protocol.DescriptorsBalance` | pkg/units/control.go:123-172 | In every lawful log, descriptors obtained are descriptors closed plus those still held. |
| `Protocol.RanMeansApproved` | pkg/units/control.go:147-156 | What ran had just been loaded as valid and approved by OnVerifyDone. |
| `Protocol.VerdictFollows` | pkg/units/control.go:147-166 | A verdict given on a look at the map is about the program loaded, approved, run and closed just before, whose map loads name that map. |
| `KernelInterface.FFI.ValidateEbpfProgram` | pkg/units/ffi.go:139-157 | An error exactly on empty code or a failed conversation, and then nothing changes; otherwise the load is logged, the descriptor granted if it is free, and each sampled address reported once, in order of first appearance. |
| `KernelInterface.FFI.RunEbpfProgram` | pkg/units/ffi.go:159-167 | Logs the run and says whether the conversation went through. |
| `KernelInterface.FFI.GetMapElements` | pkg/units/ffi.go:123-127 | Logs the look at the map and its reply. |
| `KernelInterface.FFI.CreateMapArray` | pkg/units/ffi.go:112-116 | The descriptor in store if it is not open, else -1; logged either way. |
| `KernelInterface.FFI.CloseFD` | pkg/units/ffi.go:118-121 | Closes any number it is given; the history stays lawful if the rules allowed that close. |
| `ControlUnit.EmittedNamesMap` | pkg/strategies/coverage_based.go:221-229 | Whatever the body's length, an emitted program is well formed, and all its map loads name the map patched into its head. |
| `ControlUnit.SubmittedCodeIsClosed` | pkg/strategies/coverage_based.go:195-243 | The closure theorem for everything submitted, with bodies of up to 32768 instructions: forward paths from start to start, footer entered at its first instruction, Exit within slot-count steps, every execution halts. |
| `ControlUnit.Control.Submit` | pkg/units/control.go:123-145 | What reaches the verifier is the encoding of the generated program, while its map is open; it is never refused by the encoder, and the answer decides whether there is a result. |
| `ControlUnit.Control.Execute` | pkg/units/control.go:152-171 | Run, close, read the map, callback, in this order, cut short exactly where the kernel's answers say; the descriptor is closed if the run failed too, and on every outcome none is held. |
| `ControlUnit.Control.RunEbpf` | pkg/units/control.go:123-172 | The outcome is decided by the kernel's answers and the novelty of the coverage, and for each outcome exactly what is logged is stated: nothing on a failed load; load, refusal, close; or load, approval, run, close, map read and verdict, cut short by a failed run or an index panic. |
| `ControlUnit.Control.Round` | pkg/units/control.go:88-121 | The program that was just generated is the one that is submitted: the history grows by the trade of maps and by the events of that program's encoding; an error before that is the draws' or the refused map's. |
| `ControlUnit.Control.RunFuzzer` | pkg/units/control.go:88-121 | After any number of rounds and on every outcome: how many programs were generated and how many of them reached the verifier is exact, and an error is tied to the draws or the kernel's last answer; the log is lawful, no program descriptor is held, only coverage programs were submitted and only accepted ones approved, all scheduler and memory invariants hold; the loop ends regularly exactly on the first unexpected result. |
| `ControlUnit.RoundLoads` | pkg/units/control.go:123-145 | A round sends one program to the verifier, unless the load failed. |
| `ControlUnit.DecidedCases` | pkg/units/control.go:123-172 | Every error of a round goes back to the kernel's last answer. |
| `ControlUnit.CoverageIsCandid` | pkg/strategies/coverage_based.go:249-252 | Nothing the verifier refused is ever approved. |
| `FuzzingVerdicts.Fuzz` | pkg/units/control.go:69-121 | From scratch, for any constants, inherited descriptors, kernel script, draws and number of rounds: the counts of generated and submitted programs, only the map left open, every other descriptor closed once, and with truthful replies the run is done exactly when a program was caught with a nonzero register under test or an execution did not take place. |
| `FuzzingVerdicts.VerdictIsExact` | pkg/strategies/coverage_based.go:304-309 | For submitted bytes, the verdict is good exactly if they were executed and the footer saw zero; a footer sees only one value. |
| `FuzzingVerdicts.JudgedRight` | pkg/strategies/coverage_based.go:304-309 | Every bad verdict in a history is about a caught program or a failed execution, and each of these got one. |
| `Executions.FooterSeesOne` | pkg/strategies/coverage_based.go:85-109 | A run of closed bytes comes to its footer once, so just one value is tested. |
| `ControlUnit.Control.OnlyTheMapIsOpen` | pkg/units/control.go:88-121 | Whenever no program is held the current map is the only descriptor open beyond those inherited, and opens minus closes say so too. |
| `MemoryModel.StoreBytes` | pkg/ebpf/st_ld_instructions.go:21-60 | A store of n bytes changes exactly those bytes, little-endian, around the end of the address space as well. |
| `MemoryModel.LoadsAgree` | pkg/strategies/pointer_arithmetic.go:155 | Two loads give the same number exactly when all bytes agree. |
| `InstructionEffects.HalvesRecombine` | pkg/ebpf/alu_instructions.go:41-74 | The two int32 halves of a 64-bit constant recombine to it. |
| `InstructionEffects.ExecuteMovConstant` | pkg/ebpf/alu_instructions.go:238-246 | `Mov64` with a constant leaves exactly that constant, in the narrow and in the wide form. |
| `InstructionEffects.EncodedMovLeavesConstant` | pkg/ebpf/alu_instructions.go:238-246 | One step over the bytes of `Mov64(r, v)`, 8 or 16 as v demands, ends behind them with v in r. |
| `InstructionEffects.LdMapElementSetsUp` | pkg/ebpf/jmp_instructions.go:161-175 | Before the call R1 is the map and R2 points at the stored key; R2 is keyPtr + offset exactly when keyPtr is not R1 or R1 already held the map. |
| `InstructionEffects.AluBytes` | pkg/ebpf/alu_instructions.go:21-104 | The opcode bytes of all thirteen ALU operations, in both widths and both source kinds, as numbers. |
| `InstructionEffects.JumpBytes` | pkg/ebpf/jmp_instructions.go:21-60 | The opcode bytes of all fourteen jump operations, in both widths and both source kinds, as numbers. |
| `InstructionEffects.MemoryBytes` | pkg/ebpf/st_ld_instructions.go:21-200 | The opcode bytes of loads, stores, atomics and 64-bit immediates, the pseudo sources and the access widths, as numbers. |
| `InstructionEffects.BuilderFields` | pkg/ebpf/alu_instructions.go:21-104 | Registers, offsets and immediates of every builder go where its arguments say. |
| `Oracle.QuietEffect` | pkg/ebpf/instruction_generators.go:24-236 | Generated instructions keep R10 and every byte outside the stack frame. |
| `Oracle.ReachesBarrier` | pkg/strategies/coverage_based.go:138-243 | Every run through such code reaches the footer's first instruction with the map as it was. |
| `Oracle.OneElementVerdict` | pkg/strategies/coverage_based.go:102-103 | Element 0 reads back as 0xCAFE exactly when the displacement was zero. |
| `Oracle.TwoElementVerdict` | pkg/strategies/pointer_arithmetic.go:87-110 | The two elements read back equal exactly when the signed displacement was 0 or -14..-10. |
| `Oracle.LookupsCanWork` | pkg/strategies/coverage_based.go:93-99 | The assumption of the oracle theorems about map lookups can be met for every map that fits the address space. |
| `CoverageOracle.CoverageOracleIsExact` | pkg/strategies/coverage_based.go:85-109 | Every run of an emitted program's bytes on a zeroed map halts, returns 0, and passes the check exactly when the tested register was 0 at the footer. |
| `CoverageHead.FailedLookupStops` | pkg/strategies/coverage_based.go:39-42 | If the lookups fail, the bytes halt after 7 steps, return 0 and touch no map, for a body of any length. |
| `CoverageHead.HeadInitializes` | pkg/strategies/coverage_based.go:32-56 | Every run of an emitted program's bytes, with a body of any length, is through the head after 79 steps if lookups work, with the nine constants in R1..R9, the map's element in R0 and in the 63 double words from -16 to -512, zero in the key at -4, and the four bytes from -8 to -5 as they were. |
| `CoverageHead.RunConstants` | pkg/strategies/coverage_based.go:44-52 | Each move, narrow or wide, sets its register and disturbs none set before. |
| `CoverageHead.FilledBytes` | pkg/strategies/coverage_based.go:54-56 | Later stores of the loop do not overwrite earlier ones. |
| `CoverageHead.FilledFrame` | pkg/strategies/coverage_based.go:54-56 | The loop's stores write nothing outside the 504 bytes below -8. |
| `PointerArithmeticStrategy.PointerArithmetic.GenerateBody` | pkg/strategies/pointer_arithmetic.go:56-69 | Follows the draws, counting down. |
| `PointerArithmeticStrategy.BodiesExactly` | pkg/strategies/pointer_arithmetic.go:56-69 | Exactly the bodies of under 1000 ALU and jump instructions in which each jump is bounded by the instructions still to come are generated, each on some draws. |
| `PointerArithmeticStrategy.FailedLookupStops` | pkg/strategies/pointer_arithmetic.go:90-96 | If the lookups fail, every run halts in the footer, returns 0 and touches no map. |
| `PointerArithmeticStrategy.PointerArithmetic.GenerateProgram` | pkg/strategies/pointer_arithmetic.go:32-131 | From draws and kernel answer: ten constants, body and, behind the new map, the register; the two-element footer for it, or the error of a refused map. The number in the field is closed, whatever it is, before the map is made. |
| `PointerArithmeticStrategy.PointerArithmetic.OnVerifyDone` | pkg/strategies/pointer_arithmetic.go:136-144 | Counts valid programs and approves every one, refused or not. |
| `PointerArithmeticStrategy.PointerArithmetic.OnExecuteDone` | pkg/strategies/pointer_arithmetic.go:148-156 | Panics exactly on a readable reply with fewer than two elements, which is what a look-up refused by the kernel looks like; bad exactly on two different elements; an unreadable reply passes. |
| `PointerArithmeticStrategy.PointerProgramIsClosed` | pkg/strategies/pointer_arithmetic.go:32-131 | Every generated program is closed with the footer as barrier, and keeps to the stack until then. |
| `PointerArithmeticStrategy.PointerOracleIsExact` | pkg/strategies/pointer_arithmetic.go:80-115 | Every run of the bytes of a generated program halts and returns 0, and its elements agree exactly when the tested register was 0 or -14..-10 at the footer. |
| `PointerArithmeticStrategy.PointerNamesMap` | pkg/strategies/pointer_arithmetic.go:80-115 | The bytes of a generated program decode, and every map load among them names the new map. |
| `PointerRuns.PointerControl.RunEbpf` | pkg/units/control.go:123-172 | The outcome by the kernel's answers, and the events of each; a refused program is approved and then closed as -1; with an owned map at the start the rules hold throughout. |
| `PointerRuns.PointerControl.Round` | pkg/units/control.go:88-121 | The program just generated is the one submitted; an error before that is the draws' or the refused map's. |
| `PointerRuns.PointerControl.RunFuzzer` | pkg/units/control.go:88-121 | For every initial descriptor, kernel, draws and number of rounds: lawful exactly if nothing was called or the descriptor was the fuzzer's own at the start; candid exactly if no program was refused; no program descriptor is left; the counts of generated and submitted programs are exact, and an error is tied to the draws or the kernel's last answer. |
| `PointerRuns.FuzzPointers` | pkg/strategies/pointer_arithmetic.go:18-20 | From a fresh process: lawful exactly if nothing was called or the field holds -1, which the zero of a new struct is not; with truthful replies every verdict of the run, lawful or not, is right. |
| `PointerRuns.FirstCloseDecides` | pkg/strategies/pointer_arithmetic.go:74-75 | A first close of a number that is not the map makes every continuation unlawful. |
| `PointerRuns.RoundCandour` | pkg/strategies/pointer_arithmetic.go:136-144 | Every kind of round keeps it so that approvals are candid exactly if no program was refused. |
| `PointerRuns.PointerVerdictIsExact` | pkg/strategies/pointer_arithmetic.go:148-156 | For submitted bytes, the verdict is good exactly if they were not executed or the signed register was 0 or -14..-10 at the footer. |
| `PointerRuns.PointerJudgedRight` | pkg/strategies/pointer_arithmetic.go:148-156 | In every history, a verdict is bad exactly if the map was readable, the program executed, and its footer saw a value that the two elements show. |
| `PointerRuns.RoundIsJudged` | pkg/units/control.go:147-170 | Every verdict in a history follows on the load, approval, run, close and map read of a program the strategy can generate for that map. |
| `LoopStrategy.LoopPointerArithmetic.Turn` | pkg/strategies/loop_pointer_arithmetic.go:214-245 | Follows the draws, redrawing R1 and R2. |
| `LoopStrategy.LoopPointerArithmetic.GenerateBody` | pkg/strategies/loop_pointer_arithmetic.go:213-246 | Follows the draws, counting down the turns. |
| `LoopStrategy.TurnsExactly` | pkg/strategies/loop_pointer_arithmetic.go:213-246 | Exactly the sequences of so many turns, each a context write, a stack load, an ALU instruction or a jump over turns to come, are generated, each on some draws. |
| `LoopStrategy.LoopPartsExactly` | pkg/strategies/loop_pointer_arithmetic.go:201-246 | Exactly the choices of nine int32 constants and a body of under 1000 turns are drawn, each on some draws. |
| `LoopStrategy.TurnsAreBody` | pkg/strategies/loop_pointer_arithmetic.go:213-246 | Every jump lands inside the body or right behind it, although turns differ in length. |
| `LoopStrategy.LoopPointerArithmetic.GenerateProgram` | pkg/strategies/loop_pointer_arithmetic.go:140-276 | Main and loop function with their func_info, for the parts that the draws decide on and the new map, and the BTF bytes; the new descriptor was not open before, what is open afterwards is exact, and a field that is -1 or open stays so. |
| `LoopStrategy.MapSurvivesExactly` | pkg/strategies/loop_pointer_arithmetic.go:150-152 | Whatever free number the kernel gives, the new map outlives the close of the field's number exactly if that number is negative or open beforehand. |
| `LoopStrategy.LoopPointerArithmetic.OnExecuteDone` | pkg/strategies/loop_pointer_arithmetic.go:291-305 | Bad exactly on a nonzero second element; panics exactly on a readable reply with fewer than two. |
| `LoopOracle.LoopOracleIsExact` | pkg/strategies/loop_pointer_arithmetic.go:154-195 | Every run of the bytes calls the helper after 7 steps with 10 turns, the address of the loop function, R10-8 and no flags; if lookups work and the helper gives R10 back and leaves element 1 zero, it halts 20 steps later, returns 0, has stored the word found at R10-12 that far behind element 1's start, and the verdict is good exactly if that word is 0 or at least 8. |
| `LoopOracle.LoopVerdictIsExact` | pkg/strategies/loop_pointer_arithmetic.go:176-178 | Element 1 is still zero exactly if the word was 0 or at least 8; element 0 holds the constant in any case. |
| `LoopOracle.RunPrologue` | pkg/strategies/loop_pointer_arithmetic.go:197-212 | The callback saves its context pointer at R10-8, keeps the turn number in R1 and gives every other register its constant. |
| `LoopOracle.RunContextWrite` | pkg/strategies/loop_pointer_arithmetic.go:223-230 | The six instructions store one byte, 16, as far below the saved pointer as the low six bits of the register say, give R2 a new constant, and change nothing else but that register. |
| `LoopOracle.LoopFunctionReturnsZero` | pkg/strategies/loop_pointer_arithmetic.go:197-254 | Entered in any state, the callback returns 0 within as many steps as it has instructions. |
| `LoopRuns.LoopControl.RunEbpf` | pkg/units/control.go:123-172 | The outcome by the kernel's answers, and the events of each, for the bytes of both functions. |
| `LoopRuns.LoopControl.Round` | pkg/units/control.go:88-121 | The parts that the draws decide on are what is submitted, for the map just asked for, made or not. |
| `LoopRuns.LoopControl.RunFuzzer` | pkg/units/control.go:88-121 | For any kernel, draws and number of rounds: with a field that is -1 or open at the start, no program is ever submitted after its map was closed; the counts of generated and submitted programs are exact, and an error is tied to the draws or the kernel's last answer. |
| `LoopRuns.LosesExactly` | pkg/strategies/loop_pointer_arithmetic.go:150-152 | After any history, some answer of the kernel makes the next submission one without its map exactly if the field's number is not negative and not open. |
| `LoopRuns.FuzzLoops` | pkg/strategies/loop_pointer_arithmetic.go:14-26 | From a fresh process: no map is lost if the field is negative or names an inherited descriptor; the run never ends regularly. |
| `LoopStrategy.LoopPointerArithmetic.BtfSection` | pkg/strategies/loop_pointer_arithmetic.go:144-148 | Whatever lengths the header held, the bytes parse to the strategy's seven types, with 116 bytes of types and 13 of text. |
| `LoopStrategy.LinkingIsExact` | pkg/strategies/loop_pointer_arithmetic.go:184-257 | For every body: the function pointer load and the func_info offset both name the slot where the loop function starts, and executing the load yields that function's address. |
| `LoopStrategy.FuncInfoNamesBoth` | pkg/strategies/loop_pointer_arithmetic.go:256-257 | The encoded func_info decodes to (0, 2) and (31, 7). |
| `LoopStrategy.FunctionsAreSeparate` | pkg/strategies/loop_pointer_arithmetic.go:140-276 | Both functions end in Exit, no jump crosses between them, and slot and index targets agree throughout. |
| `CoverageManagers.CoverageManager.ProcessCoverageAddresses` | pkg/units/coverage_manager.go:53-126 | After any call, failed and panicking ones included, every cached entry is what the lookup says and the index is the lines of the cached addresses in order; which addresses were added, and whether the call succeeds, gives up or panics, is exact; success returns the lookup restricted to what was known or answered, which is the whole request if every address was answered; the maximum is the larger of its old value and known plus unknown, and enters the history exactly if it grew; nothing is cached twice exactly as long as no resolvable line is reached twice. |
| `CoverageManagers.StopsExactly` | pkg/units/coverage_manager.go:85-123 | A call gives up exactly if something new was asked for and the resolver fails or the first line that cannot be handled is an unparsable number; it panics exactly if that line has no colon or no address. |
| `CoverageManagers.NoColonExactly` | pkg/units/coverage_manager.go:98-115 | The second index is out of range exactly on a non-empty line whose first word's last component has no colon. |
| `CoverageManagers.SpaceHidesColon` | pkg/units/coverage_manager.go:101-115 | Any line with a space before its first colon is such a line. |
| `CoverageManagers.CallOnceExactly` | pkg/units/coverage_manager.go:57-123 | Over all outcomes of a call, what is new in the cache, and that it holds something twice exactly if it did before or a resolvable line was reached twice. |
| `CoverageManagers.CachedOnceExactly` | pkg/units/coverage_manager.go:57-62 | Each resolvable address is cached as often as its line is reached. |
| `CoverageManagers.DistinctRequest` | pkg/units/coverage_manager.go:57-62 | A request without repeats reaches nothing twice. |
| `CoverageManagers.CoverageManager.FindUnknown` | pkg/units/coverage_manager.go:57-62 | The addresses of the request that are not cached, repeats included, in order. |
| `CoverageManagers.CoverageManager.ReadLines` | pkg/units/coverage_manager.go:96-123 | Caches line by line up to the first that cannot be handled, and says how that one ends the call. |
| `CoverageManagers.CoverageManager.CacheLine` | pkg/units/coverage_manager.go:121-122 | Cache and index stay in agreement when one address is added. |
| `CoverageManagers.CoverageManager.RecordCoverageLine` | pkg/units/coverage_manager.go:128-136 | The line is appended for its file and no other file changes. |
| `CoverageManagers.CoverageManager.ConvertAddresses` | pkg/units/coverage_manager.go:70-79 | The cache restricted to the request. |
| `CoverageManagers.CoverageManager.IndexAgreesExactly` | pkg/units/coverage_manager.go:128-136 | Each file's lines are the multiset of lines of its cached addresses exactly when no address was cached twice. |
| `CoverageManagers.LinesPermute` | pkg/units/coverage_manager.go:128-136 | The order of caching does not matter to the multiset of lines. |
| `Cbpf.EncodeCbpfInstructions` | pkg/units/control.go:213-226 | Every field is cut to its width, instruction by instruction. |
| `Cbpf.NarrowingIsModulo` | pkg/cbpf/instruction_generators.go:56-59 | A draw that went through int8, int32 and uint8 arrives modulo 256, hence never larger. |
| `Cbpf.NarrowingIsFaithful` | pkg/cbpf/instruction_generators.go:56-59 | Every draw survives exactly when the bound is at most 255. |
| `Cbpf.AluIsStraight` | pkg/cbpf/alu_instructions.go:21-58 | No operation code or source turns an ALU instruction into a jump or return. |
| `Cbpf.StoreLoadIsStraight` | pkg/cbpf/st_ld_instructions.go:21-44 | No mode, valid or not, turns a load or store into a jump or return. |
| `Cbpf.RandomJmpInstruction` | pkg/cbpf/instruction_generators.go:46-64 | Follows the draws, redrawing JA. |
| `Cbpf.JmpExactly` | pkg/cbpf/instruction_generators.go:46-64 | Exactly the conditional jumps that fall through on true and whose false branch is the int8 cast of a number from 1..maxOffset come out. |
| `Cbpf.RandomLoadInstruction` | pkg/cbpf/instruction_generators.go:134-155 | Follows the draws. |
| `Cbpf.LoadExactly` | pkg/cbpf/instruction_generators.go:134-155 | Exactly the loads with one of nine mode draws, three sizes, two classes and the constants of the mode come out. |
| `Cbpf.RandomStoreInstruction` | pkg/cbpf/instruction_generators.go:119-132 | Follows the draws. |
| `Cbpf.StoreExactly` | pkg/cbpf/instruction_generators.go:119-132 | Exactly the stores of three sizes and two classes with constants 0..512 come out. |
| `Cbpf.RandomAluInstruction` | pkg/cbpf/instruction_generators.go:22-44 | Follows the draws. |
| `Cbpf.AluExactly` | pkg/cbpf/instruction_generators.go:22-44 | Exactly the eleven operations with X or an int32 constant, shifts below 32, come out. |
| `Cbpf.GeneratedFit` | pkg/cbpf/instruction_generators.go:22-155 | All generated instructions fit their filter fields; only the jumps are in the jump class, and none in the return class. |
| `Cbpf.FilterRoundTrip` | pkg/units/control.go:213-226 | All four fields of an instruction that fits its filter survive the narrowing. |
| `Cbpf.FilterFrame` | pkg/strategies/cbpf_random_instruction.go:27-50 | The filters of every generated program begin with `add #1` and `tax` and end with `ret #4`, byte for byte. |
| `Cbpf.RandomInstructionStrategy.GenerateProgram` | pkg/strategies/cbpf_random_instruction.go:23-59 | Follows the draws, counting down. |
| `Cbpf.ProgramsExactly` | pkg/strategies/cbpf_random_instruction.go:23-59 | Exactly the programs of two set-up instructions, a body of under 1000 whose jumps are bounded by what is still to come, and the final return are generated, each on some draws. |
| `Cbpf.FilterStep` | pkg/units/control.go:213-226 | In the encoded filters every step goes forward and not past the final return, and only that return has no successor. |
| `Cbpf.JumpSuccessors` | pkg/units/control.go:213-226 | A generated jump goes to the next filter or over the cast draw modulo 256; everything else to the next. |
| `Cbpf.FilterPaths` | pkg/strategies/cbpf_random_instruction.go:27-50 | Every path through the encoded program moves forward, stays inside and can stop only at the final return. |
| `Btf.TypeInfoRoundTripExactly` | pkg/ebpf/btf.go:40-60 | The kernel reads the type info back exactly when the kind flag is clear. |
| `Btf.BtfMessage.GetBuffer` | pkg/ebpf/btf.go:62-142 | Overwrites the three lengths in the header whatever they were; for well-formed types the parser recovers header, types and string section, the string section follows the types, and the length is 24 plus both sections. |
| `Btf.TypesRoundTrip` | pkg/ebpf/btf.go:76-95 | The words of a well-formed type list parse back to that list. |
| `Btf.BufferRoundTrip` | pkg/ebpf/btf.go:72-142 | The round trip for the whole buffer, and the text is every second byte of the string section. |
| `Btf.LoopTypesAreWellFormed` | pkg/strategies/loop_pointer_arithmetic.go:28-138 | The type list of the loop strategy is well formed, and the two types named by func_info are functions. |
| `Btf.LoopTypesMean` | pkg/strategies/loop_pointer_arithmetic.go:28-138 | Read as C types: main is a function of nothing returning nothing, the callback one of a signed 32-bit int and a pointer to a struct of one such int, returning it. |
| `Btf.LoopTypeNames` | pkg/strategies/loop_pointer_arithmetic.go:28-138 | Exactly the function prototypes and the pointer are nameless; all other names are the first string. |
| `MetricsUnit.Metrics.EnqueueValidationResult` | pkg/units/metrics_unit.go:56-61 | The queue grows at its end, nothing else changes: the enqueue of the two-thread machine. |
| `MetricsUnit.Metrics.DequeueValidationResult` | pkg/units/metrics_unit.go:63-81 | Nil exactly on an empty queue; otherwise the oldest result leaves: the dequeue of the two-thread machine. |
| `MetricsUnit.Metrics.ProcessVerifierLog` | pkg/units/metrics_collection.go:87-113 | Counts the third part from the end of an invalid result's log, or panics when there is none. |
| `MetricsUnit.Metrics.ShouldCollectDetailedInfo` | pkg/units/metrics_unit.go:113-115 | True at the multiples of the threshold; a zero threshold divides by zero. |
| `Strings.SplitIsExact` | pkg/units/metrics_collection.go:102 | The parts joined by the separator are the text, none contains a separator, and there is one more than separators. |
| `MetricsUnit.ErrorNeedsTwoLines` | pkg/units/metrics_collection.go:104-106 | The error line exists exactly when the log has two line breaks. |
| `MetricsUnit.ErrorLine` | pkg/units/metrics_collection.go:104-106 | It is the line above the last two parts. |
| `MetricsUnit.ControlKeeps` | pkg/units/metrics_unit.go:101-125 | Every step of the control thread keeps order, counters, sampling and verdict counts. |
| `MetricsUnit.ProcessorKeeps` | pkg/units/metrics_unit.go:83-96 | Every step of the processing goroutine does. |
| `MetricsUnit.EveryInterleavingKeeps` | pkg/units/metrics_unit.go:56-125 | So do all interleavings of the two. |
| `MetricsUnit.CountersAreConsistent` | pkg/units/metrics_unit.go:56-125 | At every moment: enqueued is processed, in flight and queued, in order; valid at most verified; sampled is verified divided by the threshold, rounded down; each verdict count is the number of processed invalid results with that error, and the counts sum to the processed invalid results with a log; the latest log is that of the last processed result that had one; no address is cached twice if no result names one twice. |
| `MetricsUnit.TotalIsSize` | pkg/units/metrics_collection.go:108-112 | The sum over the verdict map is the number of errors it counts. |
| `MetricsUnit.CachingStep` | pkg/units/metrics_unit.go:90 | Resolving caches only resolvable addresses of results taken from the queue. |
| `MetricsUnit.PanicsExactly` | pkg/units/metrics_unit.go:83-115 | A thread panics exactly on a zero threshold it has to compare with, on an invalid result whose non-empty log has fewer than two line breaks, or while resolving new addresses if the first line that cannot be handled has no colon or no address. |

## Left out

- The kernel: the verifier's decision, kcov, sockets, mmap, and the protobuf and base64 marshalling between Go and C++. An abstract kernel gives fresh descriptors and arbitrary verdicts and map contents.
- The history of calls holds the program bytes of a submission; the BTF and func_info sections that go with them are proved where they are made.
- Termination of the redraw loops and of `RunFuzzer`: a redraw loop ends when its tape of draws does, and the loop is modelled for any number of rounds.
- Random.Rng.RandRange: does not model the overflow of `int(end-begin+1)` for ranges of 2^63 values and more, which no caller asks for.
- Random.Rng.OneOf: states which draws it is true on, nothing about how likely they are.
- Helper calls other than map lookup have arbitrary effects; `bpf_loop` does not call the second function in the machine. What main does before and after the helper, and what the callback does when entered, are proved apart.
- Byte swaps and the fetching and exchanging atomics are not in the machine: no generator emits them.
- Non-Mov ALU builders given an int64, which fail a type assertion in the source (pkg/ebpf/alu_instructions.go:75-79), are shut out by a precondition.
- CoveragePrograms.MutationKeepsCoverageProgram: claims closed jumps only for bodies of up to 32768 instructions, because that is the exact bound; beyond it only the shape of the program is kept.
- CoverageOracle.CoverageOracleIsExact: assumes that the lookups succeed, that the map starts zeroed and that it does not overlap the stack frame.
- Encoding.EncodeInstruction: states failure and number of words only; what the words are is stated by Encoding.EncodedWords and Encoding.WordLayout.
- GoSlices.Append: how much a new array exceeds what is needed is arbitrary rather than Go's growth formula; unused array places hold a placeholder instead of nil.
- CoverageStrategy.CoverageBased.GenerateProgram: `lastProgram` is set after the descriptor is patched, in the source before; the message is the same object, so its contents agree.
- Descriptor balance is claimed for the coverage strategy, and for the pointer-arithmetic strategy where it starts with -1 or its own map; `runCbpf` closes no socket, and the loop strategy, which makes its next map before it closes the last, is outside those rules.
- FuzzingVerdicts.Fuzz: the claim about verdicts is for programs of up to 32768 instructions in the body, and assumes of each execution what CoverageOracle.CoverageOracleIsExact does. A program that ran although user space saw its execution fail counts as executed.
- The BTF header lengths that `SetHeaderSection` takes from `proto.Size` are arbitrary: `generateBTF` overwrites them.
- Btf.BtfMessage.GetBuffer: the round trip is stated for sections that fit an int32 length; struct types hold at most the one member the message has room for.
- CoverageManagers.CoverageManager.ProcessCoverageAddresses: the resolver answers address by address, in order, for all or the first few, and then perhaps more. The history is a list instead of a map by time.
- `GetCoverageInfoMap` returns the index without the lock; the manager is modelled under its mutex only.
- The metrics web server, command-line entry point, tools, log files and proof-of-concept printing: plumbing.
- pkg/strategies/deprecated, which its own notes call unmaintained.
- The playground strategies and the one-line opcode wrappers: they would only add members like those of the shared constructors.
