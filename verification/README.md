# mkgo verification

mkgo is a microkernel that runs every service on its own WebAssembly engine. This project models
the parts of it whose correctness is not visible from one function: the engine from the bytes of a
function body to whole runs on its preallocated stacks, the KFS1 log on a disk that may lose power,
the ticket lock and the console section built on it, the kernel heap, streaming SHA-256, the port
ring, the round-robin loop and the ABI version stamp.

Pure code is modelled by functions and lemmas, code that changes state by classes and methods that
are proved against those functions. Concurrent code is a state machine over its atomic steps.

| part | files |
|---|---|
| shared | `options`, `words` |
| bytes of a body to flat code | `leb128`, `wasm_lexer`, `wasm_decode`, `wasm_decode_facts`, `temp_vector`, `wasm_loader`, `wasm_modules` |
| the validator | `wasm_syntax`, `wasm_structure`, `wasm_validation`, `wasm_validation_facts`, `wasm_static`, `wasm_validator`, `wasm_strict`, `wasm_spec` |
| the machine and type soundness | `wasm_numerics`, `linear_memory`, `memory_buffer`, `wasm_exec`, `wasm_machine`, `wasm_labels`, `wasm_jumps`, `wasm_soundness`, `wasm_plain_soundness`, `wasm_step_soundness`, `wasm_control_soundness`, `wasm_type_soundness` |
| structured meaning | `wasm_structured`, `wasm_lowering`, `wasm_simulation`, `wasm_equivalence`, `wasm_unflatten` |
| the interpreter on its stacks, whole calls | `wasm_stacks`, `wasm_runtime`, `wasm_guarantees`, `wasm_preemption`, `wasm_calls`, `wasm_from_bytes` |
| KFS1 | `kfs_log`, `kfs_format`, `kfs_disk`, `kfs_replay`, `kfs_formatter`, `kfs_volumes` |
| the rest of the kernel | `ticket_lock`, `console`, `heap`, `sha256_words`, `block_stream`, `sha256`, `port_ring`, `ports`, `ports_mirror`, `scheduler`, `abi_version` |

What comes from outside is a parameter: the allocator's answers, import bodies, the results of
floating-point operations on raw bits, the checksum of KFS1, how many sector writes the power
outlives, and which step of which core comes next.

The theorems about whole calls take an embedder as the engine does: imports return results of the
declared types and leave globals well typed and memory valid, and the allocator grants nothing
beyond the 48-bit address space.

Every lemma carries `{:induction false}`: each induction is written out.

## Model

| member | source | states |
|---|---|---|
| Leb128.Reader.ULeb32 | core/wasm/wasm.cc:425-442 | accepts exactly the u32 encodings of section 5.2.2 of the WebAssembly specification, with the value and length of the grammar |
| Leb128.Reader.SLeb32 | core/wasm/wasm.cc:444-465 | reads the value the engine's signed rule gives, modulo 2^32, and stops where that rule does |
| Leb128.Reader.SLeb64 | core/wasm/wasm.cc:467-489 | the same for 64 bits |
| Leb128.EngineMeetsGrammar | core/wasm/wasm.cc:444-489 | the signed readers agree with the grammar exactly on encodings that are not loose; loose ones are accepted although the grammar has none |
| Leb128.LooseExample | core/wasm/wasm.cc:444-465 | five concrete bytes that the engine takes and the grammar rejects |
| Leb128.UnsignedRoundTrip | scripts/add_abiver.py:8-15 | reading an unsigned encoding followed by anything gives the number back |
| Leb128.SignedRoundTrip | core/wasm/wasm.cc:444-489 | every signed value's canonical encoding is read back by the grammar |
| Leb128.SignedReadBack | core/wasm/wasm.cc:444-489 | and by the engine |
| TempVectors.TempVector.Append | core/wasm/wasm.cc:550-582 | one more value at the end, or no change when memory is refused; it cannot fail while the newest chunk has room, which after a reserve is as many appends as were reserved |
| TempVectors.TempVector.NthFrom | core/wasm/wasm.cc:625-635 | a cursor lookup gives the value at that index whatever chunk it is in |
| TempVectors.TempVector.Patch | core/wasm/wasm.cc:1154-1180 | the decoder's write through an opening instruction's pointer replaces that one value and keeps the rest |
| TempVectors.TempVector.Finish | core/wasm/wasm.cc:667-689 | the consolidated block holds the values in order of appending |
| TempVectors.AtVisitsOnce | core/wasm/wasm.cc:637-650 | asking for every index never visits one value twice |
| TempVectors.AtReaches | core/wasm/wasm.cc:637-650 | and reaches every value |
| WasmLoader.ReadToken | core/wasm/wasm.cc:1117-1640 | the byte reader yields the instruction that the grammar of tokens gives and the position after it |
| WasmLoader.DecodeOps | core/wasm/wasm.cc:1117-1658 | the decoding loop with its control stack and back-patching computes the lowering function, instructions and targets |
| WasmDecodeFacts.PlaceKeeps | core/wasm/wasm.cc:1139-1218 | each placed instruction keeps every finished construct resolved: else and end pcs point at the else and end of the same construct |
| WasmDecodeFacts.LowerOk | core/wasm/wasm.cc:1117-1658 | every accepted body is well formed, and each flat instruction carries the token at its place |
| WasmValidator.ValidationContext.CheckInstr | core/wasm/wasm.cc:2665-2821 | one instruction on the validator's arrays does what the typing rule says, or rejects when it does |
| WasmValidator.ValidationContext.Validate | core/wasm/wasm.cc:2822-2840 | accepts exactly the bodies the rules accept and then knows their stack bound |
| WasmStrict.StepCovers | core/wasm/wasm.cc:2215-2292 | one instruction: the rule by which a construct in unreachable code starts out reachable accepts exactly when the engine's does and the construct has the operands or is itself unreachable; the stacks agree afterwards |
| WasmStrict.StrictIff | core/wasm/wasm.cc:2822-2840 | the same for whole bodies, with the engine's limits on both sides: accepted exactly when the engine accepts and no instruction takes an operand that its own construct does not have |
| WasmSpec.InstrIs | core/wasm/wasm.cc:2131-2292 | one instruction by the validation algorithm of the WebAssembly specification's appendix, which has no limits, is the strict rule except where a limit is passed |
| WasmSpec.SpecIff | core/wasm/wasm.cc:2822-2840 | the engine accepts a body without such an instruction if and only if the specification accepts it and it stays within 16 parameters, 4 results, a million instructions, 16384 operands and 4096 open constructs; the recorded bound is the highest stack |
| WasmSpec.SpecRejectsExample | core/wasm/wasm.cc:2234-2234 | six instructions that the engine accepts and the specification does not, in any module |
| WasmStrict.BorrowsInherited | core/wasm/wasm.cc:2234-2234 | such an instruction stands in a construct that inherited its unreachable flag |
| WasmStrict.BorrowExample | core/wasm/wasm.cc:2234-2234 | in the same six instructions, which one takes what it does not have |
| WasmModules.LoadedModule.Walk | core/wasm/wasm.cc:1961-2003 | after the first walk every body is recorded with its shape and its slice of the shared targets; a rejected one has no lowering |
| WasmModules.LoadedModule.CheckBodies | core/wasm/wasm.cc:2967-3027 | on success every body is accepted in the final module; on rejection some body is hopeless; nothing but stack bounds changes |
| WasmModules.LoadedModule.EnsureLowered | core/wasm/wasm.cc:1824-1862 | lowering on the first call fills in exactly the instructions that were checked and leaves the module as it was |
| WasmGuarantees.TargetsAreEncoded | core/wasm/wasm.cc:1188-1217 | the slice a br_table reads at its base plus operand holds exactly the targets encoded in its bytes |
| WasmUnflatten.Structured | core/wasm/wasm.cc:1117-1218 | every well-formed flat body is the flattening of structured code |
| WasmGuarantees.LoadedOk | core/wasm/wasm.cc:2967-3027 | a loaded module has a typing derivation and a structured reading for every body |
| WasmTypeSoundness.StepIsSound | core/wasm/wasm.cc:3636-4458 | progress and preservation of one iteration of the loop, for every instruction: never ill typed, and the next state is sound again |
| WasmTypeSoundness.RunIsSound | core/wasm/wasm.cc:3636-4458 | after any number of iterations the machine is sound, or stopped with results of the declared types, a trap, an exit or a named shortage |
| WasmTypeSoundness.WithinLimits | core/wasm/wasm.cc:3489-3525 | at every moment of every run values, frames and labels are within their stacks: what enter_frame reserved covers every later push |
| WasmLabels.RunLabels | core/wasm/wasm.cc:3662-3700 | the label stack never outgrows its size, whatever the code |
| WasmEquivalence.MeaningIsRun | core/wasm/wasm.cc:3575-3606 | a structured evaluation that stops is reproduced by the flat code with its resolved pcs |
| WasmEquivalence.RunIsMeaning | core/wasm/wasm.cc:3662-3728 | a flat run that stops, other than for want of space, reports what the structured evaluation gives |
| WasmRuntime.Runtime.EnterFrame | core/wasm/wasm.cc:3489-3522 | reserves locals and operand stack or fails as the machine does, and for its reason; the arguments become the first locals |
| WasmRuntime.Runtime.ExecuteImport | core/wasm/wasm.cc:3527-3573 | the host's results replace the arguments and nothing else moves |
| WasmRuntime.Runtime.BranchTo | core/wasm/wasm.cc:3575-3606 | unwinding in place lands where the label says, with its results on top |
| WasmRuntime.Runtime.LeaveFunction | core/wasm/wasm.cc:3608-3634 | the results end up on the caller's operands, or in the caller's buffer |
| WasmRuntime.Runtime.DoPlain | core/wasm/wasm.cc:3730-4455 | instructions that neither jump nor call change operands, locals and store as their meaning says |
| WasmRuntime.Runtime.StepOnce | core/wasm/wasm.cc:3636-4458 | one iteration on the three flat stacks is one step of the machine of activations |
| WasmRuntime.Runtime.RunFor | core/wasm/wasm.cc:3636-3652 | any number of iterations |
| WasmRuntime.Runtime.Invoke | core/wasm/wasm.cc:3258-3287 | a call from outside starts from one fresh activation; a wrong number of arguments or a small buffer is an error that changes nothing, want of stack a trap; the arguments are written outside the value stack exactly when there are more of them than it holds |
| WasmStacks.FlatFills | core/wasm/wasm.cc:3489-3525 | the activations exactly fill the value and label stacks |
| WasmStacks.StepFlat | core/wasm/wasm.cc:3636-4458 | the machine's step depends on the innermost activation and the counts below it alone |
| WasmGuarantees.CallIsSafe | core/wasm/wasm.cc:3255-3287 | every call into a loaded module, at every moment: no ill-typed step, every activation is what the validator computed at its pc, values, frames and labels within their stacks, results of the declared types |
| WasmGuarantees.CallIsMeaning | core/wasm/wasm.cc:3255-3287 | and a call that stops reports what the structured reading of the module's bytes says |
| WasmCalls.CallLoaded | core/wasm/wasm.cc:3255-3302 | the interpreter itself, on its arrays, reaches what the machine's run reaches and is safe in the sense above, or reports why the function was not entered; no access leaves the preallocated stacks |
| WasmCalls.TwoIntoOne | core/wasm/wasm.cc:3270-3272 | two arguments for a value stack of one: the second write is outside |
| WasmFromBytes.Load | core/wasm/wasm.cc:1961-2003 | both walks and lowering from the bytes of the code section: on success every body is what its bytes lower to and the module is the checked one; a rejection has its cause |
| WasmFromBytes.LoadAndCall | core/wasm/wasm.cc:3258-3302 | from bytes to a result: whatever the loader accepts can be called, and the interpreter's report is that of the machine's run, which is safe |
| WasmPreemption.Transparent | core/wasm/wasm.cc:3289-3302 | for every schedule of requests, yields and resumes, with result buffers that are large enough, the machine goes through exactly the states of the uninterrupted run |
| WasmPreemption.SameEnd | core/wasm/wasm.cc:3289-3302 | and ends as it does |
| WasmPreemption.YieldsAreAskedFor | core/wasm/wasm.cc:3636-3652 | there are never more yields than requests |
| LinearMemory.StoreThenLoad | core/wasm/wasm.cc:4350-4393 | a load gives back the stored low bytes and no other byte changes |
| MemoryBuffer.Buffer.Fill | core/wasm/wasm.cc:3196-3201 | data segments are written in order, and refused when one does not fit |
| MemoryBuffer.Buffer.GrowBy | core/wasm/wasm.cc:3459-3487 | memory.grow on the buffer is the growth function, reallocation included |
| MemoryBuffer.Buffer.AtLeast | core/wasm/wasm.cc:3422-3457 | the host's request on the buffer is its function |
| MemoryBuffer.ServedKeeps | core/wasm/wasm.cc:3411-3487 | after any sequence of both, with any answers of the allocator: page multiple, within capacity, ceiling and declared maximum, every old byte kept, every new byte zero |
| MemoryBuffer.ServeKeeps | core/wasm/wasm.cc:3422-3487 | a request that fails leaves size, bytes and capacity alone; one that succeeds gives what was asked |
| MemoryBuffer.CeilingKeptOverRuns | core/wasm/wasm.cc:3438-3440 | the configured ceiling survives a run exactly when every request stays under it when made |
| MemoryBuffer.CeilingKeptIff | core/wasm/wasm.cc:3422-3457 | the same for one request, as a condition on its size |
| MemoryBuffer.CeilingIsRaised | core/wasm/wasm.cc:3422-3457 | a concrete request that fails and raises the ceiling all the same |
| KfsFormat.ReplayLog | kfs/formatter.go:171-211 | a log of readable records on a volume is replayed from its start, in order |
| KfsFormat.ReplayExact | kfs/formatter.go:171-211 | exactly that log, if and only if nothing decodes right after it |
| KfsFormat.PrefixIffReadable | kfs/format.go:202-230 | a log comes back as a prefix exactly when no payload is over the limit |
| KfsFormat.StopsAtOversized | kfs/formatter.go:186-196 | replay stops before the first record over the limit |
| KfsFormat.ZerosDecode | kfs/format.go:214-230 | an all-zero header decodes as an empty record when the checksum of nothing is zero |
| KfsFormat.SuperblockRoundTrip | kfs/format.go:167-196 | a superblock is parsed back |
| KfsFormat.InodeRoundTrip | kfs/format.go:233-254 | an inode payload is decoded back |
| KfsReplay.ReplayVolume | kfs/formatter.go:171-230 | the sector-by-sector reader computes the replay function of the volume's bytes |
| KfsFormatter.Formatter.WriteAt | kfs/formatter.go:142-165 | whatever sector boundaries are crossed and whenever the power fails, what reaches the volume is a prefix of the bytes, and nothing else changes |
| KfsFormatter.Formatter.Append | kfs/formatter.go:90-106 | the record and the checkpoint due after it are appended, or no space is reported; the sectors below the volume stay |
| KfsFormatter.Formatter.Serve | kfs/formatter.go:108-126 | a new inode gets the watermark's number and moves it; its checkpoint shows the watermark before it |
| KfsVolumes.ServeAll | kfs/formatter.go:90-126 | any sequence of requests adds exactly its paced records |
| KfsVolumes.AddsLength | kfs/formatter.go:90-106 | one checkpoint for every 64 counted records |
| KfsVolumes.AppendAndCrash | kfs/formatter.go:90-106 | power may fail at any sector write of an append: every earlier record is still replayed, in order, from the start |
| KfsVolumes.AppendAndReplay | kfs/formatter.go:171-230 | while the power holds, replay returns everything that was asked for as a prefix |
| KfsVolumes.NewFormatter | kfs/formatter.go:48-60 | a writer at the start of the log, with the first inode number after the root, or none when the volume has no sector |
| KfsVolumes.Format | kfs/formatter.go:65-87 | a fresh volume replays its root inode and checkpoint; nothing below it changes |
| KfsVolumes.SplitIsHalf | kfs/format.go:344-356 | the split of an image is the middle sector |
| KfsVolumes.FindVolume | kfs/format.go:360-385 | sector 0 if it holds a superblock, else the middle one if that does, else nothing |
| KfsVolumes.FormatAndMount | kfs/format.go:344-385 | for every image: formatting the data half changes no sector below it; from 31 sectors on, when sector 0 holds no superblock, the volume is found there and starts with its root inode and checkpoint; a superblock in sector 0 hides it; smaller images stay as they are |
| TicketLock.AlwaysOk | arch/x86_64/lock.cc:106-165 | in every interleaving of prompt steps the tickets out are exactly those between served and issued, each at the core that took it |
| TicketLock.MutualExclusion | arch/x86_64/lock.cc:106-144 | at most one holder |
| TicketLock.TicketsFill | arch/x86_64/lock.cc:106-144 | a ticket is out exactly when it lies between the counters, at one core |
| TicketLock.FirstComeFirstServed | arch/x86_64/lock.cc:106-144 | cores get the lock in the order of their tickets |
| TicketLock.HandOver | arch/x86_64/lock.cc:121-144 | a release lets exactly the next ticket leave its loop |
| TicketLock.NeverStuck | arch/x86_64/lock.cc:106-120 | when someone waits and nobody holds the lock, the first in line gets it at its next look |
| TicketLock.TryReallyHolds | arch/x86_64/lock.cc:146-165 | a prompt compare-and-swap that succeeds found the lock free |
| TicketLock.TrySoundIff | arch/x86_64/lock.cc:146-165 | after a successful one at most one core ever holds the lock if and only if owner still equalled next; promptness implies it |
| TicketLock.LateTryBreaksExclusion | arch/x86_64/lock.cc:146-165 | a concrete run with two holders, after 2^32 tickets during one try |
| Console.AlwaysOk | arch/x86_64/uart.cc:76-98 | in every interleaving with nested entries a core's place in the section agrees with the lock, the owner and the depth |
| Console.OnlyOneInside | arch/x86_64/uart.cc:76-98 | only one core is ever inside, and it holds the ticket |
| Console.NestedExactlyInside | arch/x86_64/uart.cc:76-90 | the nested path is taken exactly by the core that is inside |
| Console.LastLeaveOnly | arch/x86_64/uart.cc:91-98 | leaving goes on to the release exactly when the outermost entry is left; a nested leave only lowers the depth, and neither touches the lock yet |
| Console.TicketsGivenBack | arch/x86_64/uart.cc:76-98 | each outermost section releases exactly the one ticket it took |
| Heap.Allocator.Malloc | core/rt.cc:80-123 | heap sound and block large enough and inside the pool, if and only if the request does not wrap; a free block that will do is used before the pool grows, first fit or last freed; otherwise the block is new and at the pool pointer; nothing changes on failure |
| Heap.Allocator.Free | core/rt.cc:125-146 | a live block goes to the head of its home list, and no other list changes; null and foreign pointers change nothing |
| Heap.ReusedIff | core/rt.cc:80-112 | a request is served from a free list if and only if some free block suits it and its rounded size is not between 512 KiB and 1 MiB |
| Heap.Allocator.Cycle | core/rt.cc:80-146 | malloc, free and malloc of one size: the same block comes back if and only if the rounded size is not in that band; in it, the pool grows by a megabyte |
| Heap.FreedNotReused | core/rt.cc:101-146 | 600000 bytes on a fresh heap, freed and asked for again: the second block is a new one |
| Heap.Allocator.Realloc | core/rt.cc:148-166 | the old bytes start the new block and every other live block's bytes stay; the same condition for requests that wrap |
| Heap.Allocator.LargeFit | core/rt.cc:65-78 | takes a block that fits off the list, or none fits |
| Heap.Partition | core/rt.cc:50-53 | every block is live, or on exactly one free list and there once |
| Heap.NeedCoversIff | core/rt.cc:83-83 | the rounded size covers the request exactly when the sum does not wrap |
| Heap.CarveInsideIff | core/mm.cc:68-76 | what is carved lies in the pool exactly when the address does not wrap |
| Heap.JustUnderNeverReused | core/rt.cc:101-112 | requests that round to between 512 KiB and 1 MiB, or wrap to at most 32 bytes, never reuse a free block |
| Heap.WrapExamples | core/rt.cc:80-94 | the largest request gets 32 bytes; another moves the pool pointer to zero |
| Sha256.HashBlock | core/sha256.cc:21-57 | one block in place is the compression function of section 6.2.2 of FIPS 180-4 |
| BlockStream.Stream.Update | core/sha256.cc:72-88 | the state is the fold over the whole blocks of everything fed so far, the buffer holds the rest |
| BlockStream.Stream.Finish | core/sha256.cc:90-114 | the fold over the message padded as section 5.1.1 of FIPS 180-4 says; the zero loop ends |
| BlockStream.PadIsWhole | core/sha256.cc:90-106 | the padded message is a whole number of blocks |
| BlockStream.FewestZeros | core/sha256.cc:95-97 | no fewer zero bytes would do |
| Sha256.HashStream | core/sha256.cc:59-114 | for every message under 2^61 bytes and every way of cutting it: the digest of the message |
| PortRing.PutIsEnqueue | core/ports.cc:236-258 | a send to a ring that is not full is an enqueue on the queue it stands for |
| PortRing.TakeIsDequeue | core/ports.cc:383-411 | a receive is a dequeue |
| Ports.Table.constructor | core/ports.cc:70-97 | the kernel's three endpoints in the first ports, unique names, no handles |
| Ports.Table.Create | core/ports.cc:115-141 | succeeds exactly for a live session, a name of 1 to 15 bytes that nobody goes by, a vacant port and a spare handle: the first of each; otherwise nothing visible changes |
| Ports.Table.Bind | core/ports.cc:143-176 | succeeds exactly for a live session, a known name and a spare handle: the first port of that name |
| Ports.Table.Send | core/ports.cc:182-262 | a send that reports success landed in exactly one place: the kernel, one routed call or the queue, with the sender's uid in it except when routed |
| Ports.Table.Recv | core/ports.cc:383-411 | the oldest datagram, cut to the buffer, and the rest of the queue stays |
| Ports.Table.EnqueueByName | core/ports.cc:289-325 | the kernel's enqueue by name lands in one routed call or at the end of the first port of that name, cut to the maximum and from session 0; it succeeds exactly when that port's ring has room and memory is granted |
| Ports.Table.KernelEnqueue | core/ports.cc:327-355 | the kernel's enqueue by handle appends the datagram unchanged, or does nothing |
| Ports.StampedIff | core/ports.cc:186-252 | what arrives has the uid in bytes 4 to 8 exactly when it does not go to a routed call or the sender wrote it; no other byte changes |
| Ports.RoutedUnstamped | core/ports.cc:210-217 | a routed datagram of uid 1 that arrives as from uid 0 |
| Ports.CreateKeepsUnique | core/ports.cc:115-141 | names stay unique exactly when nobody goes by what the new name reads as |
| Ports.ZeroByteDuplicates | core/ports.cc:107-141 | two creates on a fresh table, both successful, that leave two ports with one name |
| Ports.StampKeeps | core/ports.cc:245-251 | the stamp changes nothing exactly when the datagram is short, is the kernel's or carries the uid already |
| PortsMirror.Bus.Create | guests/lib/host.go:52-65 | a new queue and a new handle exactly for a valid name that is not taken |
| PortsMirror.Bus.Send | guests/lib/host.go:91-105 | one queue grows by the datagram, or the call is refused for an unknown handle, a bad size or a full queue |
| PortsMirror.Bus.Recv | guests/lib/host.go:107-125 | the oldest datagram, cut to the buffer; an empty buffer is an error |
| PortsMirror.Mirror.Do | guests/lib/host.go:13-20 | kernel table and bus side by side on the same bytes, from agreement: the answers are equal and agreement is kept if and only if the operation is shared |
| PortsMirror.Mirror.Run | guests/lib/host.go:13-20 | over any sequence of creates, binds, sends and receives the answers are equal up to the first operation that is not shared |
| PortsMirror.EmptyBuffer | guests/lib/host.go:107-113 | a receive into an empty buffer on which the two differ |
| PortsMirror.NotStamped | guests/lib/host.go:91-105 | eight zero bytes from uid 1, sent and received: the kernel's receiver sees the uid, the bus's does not |
| Scheduler.Pool.Reap | core/sched.cc:436-456 | zombies become free slots and nothing else changes |
| Scheduler.Pool.Pick | core/sched.cc:458-496 | the first runnable session from the cursor on, or none |
| Scheduler.NobodyRunsAtScan | core/sched.cc:458-496 | in every run no session is running when a scan starts |
| Scheduler.BoundedWaiting | core/sched.cc:458-496 | in every run a session that stays runnable is passed over at most ten times |
| AbiVersion.KernelWalk | core/wasm/wasm.cc:1905-2014 | the section loop accepts exactly well-tiled, ordered modules and reports the last stamp |
| AbiVersion.ReadLeb | guests/lib/abiver.go:30-46 | the guest's reader computes the 64-bit grouping |
| AbiVersion.ReadAbiVer | guests/lib/abiver.go:50-87 | the guest reports the first stamp, its absence, or a malformed module |
| AbiVersion.Leb | scripts/add_abiver.py:8-15 | the writer's loop produces the unsigned encoding |
| AbiVersion.Stamp | scripts/add_abiver.py:18-25 | appends one custom section to a module |
| AbiVersion.StampIsRead | scripts/add_abiver.py:18-25 | stamping an accepted module: the kernel accepts it exactly when a section is left and reports the new version; the guest reports it exactly when there was no stamp |
| AbiVersion.SecondStamp | guests/lib/abiver.go:50-87 | a second stamp is seen by the kernel and not by the guest |

## Findings

Properties that one would expect and that the code does not have. Each has the condition under
which it holds, for all inputs, and an input that shows it fail.

| expectation | condition | input |
|---|---|---|
| the signed LEB readers accept only what the grammar has | Leb128.EngineMeetsGrammar: the encoding is not loose | Leb128.LooseExample |
| a successful try_acquire holds the lock alone | TicketLock.TrySoundIff: owner equals next at the compare-and-swap | TicketLock.LateTryBreaksExclusion |
| a block is large enough and inside the pool | Heap.Allocator.Malloc: the rounded size and the pool address do not wrap | Heap.WrapExamples |
| a freed block is reused before the pool grows | Heap.ReusedIff and Heap.Allocator.Cycle: the rounded size is not between 512 KiB and 1 MiB, whose blocks are freed to a list that such requests never look at | Heap.FreedNotReused |
| the configured memory ceiling holds | MemoryBuffer.CeilingKeptOverRuns: every host request stays under it | MemoryBuffer.CeilingIsRaised |
| every send carries the sender's uid | Ports.StampedIff: the datagram goes to a kernel endpoint or to the queue, not to a routed call, or the sender wrote its own uid | Ports.RoutedUnstamped |
| the guests' in-memory bus mirrors the kernel's ports exactly | PortsMirror.Mirror.Do: the operation is `Shared`: a buffer that is not empty, a plain name, a live session, room in the tables, no kernel endpoint, no routed call, and a datagram that is refused or is shorter than 8 bytes or has the sender's uid in it already | PortsMirror.EmptyBuffer, PortsMirror.NotStamped |
| the engine accepts only bodies that the WebAssembly specification accepts | WasmSpec.SpecIff: no instruction in a construct opened in unreachable code takes an operand that the construct does not have | WasmSpec.SpecRejectsExample |
| a call's arguments stay inside the value stack | WasmRuntime.Runtime.Invoke: there are no more of them than the configured number of values | WasmCalls.TwoIntoOne |
| no two ports share a name | Ports.CreateKeepsUnique: the new name, read up to its first zero byte, is nobody's | Ports.ZeroByteDuplicates |
| kernel and guest read the same stamp | AbiVersion.StampIsRead: the module had no stamp before | AbiVersion.SecondStamp |
| replay returns every appended record | KfsFormat.PrefixIffReadable: no payload is over the limit, which the writer does not check | KfsFormat.StopsAtOversized |
| replay returns only appended records | KfsFormat.ReplayExact: nothing decodes after the log | KfsFormat.ZerosDecode |

Smaller departures of the code from its own comments: `TempVector::at` counts chunks from the newest
but values from the oldest inside a chunk, though its comment says from the end; a br_if on an empty
value stack would fall through, which no accepted body can reach.

## Left out

- TempVectors.TempVector.Append: whether the arena grants a new chunk is not modelled, so success is promised only while the newest chunk has room; `Reserve` and `Finish` depend on the arena in the same way.
- Floating-point arithmetic is a parameter: operand and result types, truncation traps and pushes are modelled, the computed bits are not.
- The statuses of the validator and the loader: a module is accepted, rejected or runs out of memory, and the reasons for a rejection are one.
- WasmRuntime.Runtime.Invoke: the function is given by its index; the lookup of an export by name is not modelled, and nothing is said after a write outside the value stack.
- WasmFromBytes.LoadAndCall: every body is lowered before the call, where the engine lowers each on its first call; the other sections of the module are given as values.
- WasmRuntime.Runtime.ExecuteImport: an import that yields, and the exit code, are not modelled; the number of results is what the host returns.
- WasmCalls.CallLoaded: globals and linear memory are values in the store; the buffer behind the memory is `MemoryBuffer.Buffer`.
- WasmRuntime.Runtime.DoPlain: operands are popped together, not one by one.
- Heap.Allocator.Realloc: for a request that wraps, the bytes copied past the end of a block that is too small are not modelled; a double free and a write into a header are not modelled either.
- Heap.Allocator.Malloc: a fresh header's link is unspecified in the code and empty here.
- Sha256.HashBlock: the stream calls the compression function; the method shows that the in-place code computes it.
- WasmModules.LoadedModule.Walk: each body keeps its local types itself; the shared array of local types and its bases are not modelled.
- PortsMirror.Mirror.Run: handles are numbered differently on the two sides and a handle that a session does not hold is one that the bus never gave; draining a session, the kernel's own enqueues and the bus's input and focus state are not among the operations.
- Ports.Table.Send: the fs routing table is one bit, whether the datagram answers an awaited call.
- AbiVersion.KernelWalk: the decoders of the known sections are one parameter.
- KfsDisk.Disk.Write: sectors are 512 bytes, and a sector write is atomic.
- Console.AlwaysOk: interrupts are off inside the section, as `console_enter` arranges.
- `rt_calloc`, `ports_drain_session`, `sched_exit_current`, what becomes of a killed session's ports and stack, the fs routing table, the WASI bridge, drivers, the loader and the guest libraries: not part of this model.
- `Arena::allocate`: memory is given or refused, alignment is not modelled.
- A second writer on a formatted volume, which starts over at the log's beginning: not part of this model.
