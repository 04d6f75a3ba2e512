# Verified models of the IOP kernel, GIF front end and DMA of PCSX2-Wii

A Dafny model of the integer state machines at the heart of the emulator, with proofs of what
they promise. `dafny verify dfyconfig.toml` covers the whole project.

| file | models |
|---|---|
| `HeapBlocks.dfy`, `IopHeap.dfy` | the IOP heap: packed words in a chain of slots, three placements, coalescing, snapshots |
| `HeapTables.dfy` | the same allocator on linked 31-slot tables, in lockstep with the chain |
| `ThreadState.dfy` | the IOP thread kernel as a transition system: threads, semaphores, event flags, register contexts |
| `ThreadSafety.dfy`, `ThreadRunners.dfy`, `ThreadStacks.dfy`, `FlagWakeups.dfy`, `SemaLedger.dfy`, `SemaOrder.dfy`, `ThreadHistory.dfy`, `ObjectHistory.dfy` | its theorems over whole runs |
| `FlagLaws.dfy`, `ThreadGates.dfy` | what the gates do, as their callers see it |
| `ThreadLimits.dfy`, `ThreadScenarios.dfy` | where those theorems stop: exact conditions, and runs from reset that break each hypothesis |
| `ThreadRecords.dfy`, `ThreadKernel.dfy` | the kernel object on status words and 32-bit patterns, whose methods make those transitions |
| `TriangleCoverage.dfy` | the triangle scan of the GS rasterizer |
| `GifStream.dfy`, `GifSplitting.dfy`, `GifTags.dfy`, `GifParser.dfy` | the GIF packet parser and the resumable IMAGE transfer |
| `VertexQueue.dfy` | the vertex queue |
| `StatusStack.dfy`, `ExceptionDispatch.dfy`, `ExceptionChains.dfy`, `ExceptionCalls.dfy`, `ExceptionNesting.dfy` | the exception priority chains, their dispatch, and dispatches inside dispatches |
| `DmaChain.dfy`, `DmaTags.dfy` | chain-mode DMA, on tags and on the bytes of a chain |
| `Swizzle.dfy` | swizzled GS memory |
| `Relocation.dfy` | IRX relocation |
| `AsyncQueue.dfy` | the asynchronous request table |
| `InterruptControl.dfy`, `InterruptDelivery.dfy` | EnableIntr/DisableIntr and handler delivery |
| `Words.dfy`, `Bitwise.dfy`, `Memory.dfy`, `Options.dfy` | 32-bit words, bitwise operators, little-endian memory, optional values |

Conventions. A 32-bit word is a number below 2^32 and wraps explicitly. Specifications take a register
used bit by bit (event flags, interrupt masks) as the set of its bit numbers; the objects hold the word
and work with the bitwise operators of `Bitwise`. Code that updates a global record is a class whose
methods are proved to make the step of a specification function on what the record stands for; the
theorems are about those functions. A run is any sequence of events, and what a theorem asks of it is a
predicate on each event and the state it meets.

The hypotheses of the run theorems are the places where the code does less than it seems to, and each
is a condition on a call that its caller can see.

| hypothesis | needed for | exact condition | run that breaks it |
|---|---|---|---|
| nobody suspends itself, or hands out priority 0xFFFFFFFF (`Tame`) | one runner, the best thread | `OneRunnerIff` with `PassedOverIff` and `FindsNobodyIff`, `PickedIff` | `TwoRunners`, `PassedOver` |
| no flag waiter is suspended (`SparesWaiters`) | no lost wakeup | `NoLostWakeupsIff` | `WakeupLost` |
| no waiter of the semaphore is suspended or terminated, no semaphore with waiters deleted, initial counts in range, only threads wait (`Fair`) | the semaphore's books | `RunBalancedIff` | `WaiterLost`, `MadeOutOfRange`, `NobodyWaits` |
| the ready counter never goes back (`NeverWraps`) | first-in first-out order only | `RunInOrderIff` | `OrderLost` |
| no CreateThread that wraps is accepted (`NeverWrapsBound`) | disjoint stacks of the size asked for | `StacksIff` | `NoStack` |
| no interrupt is offered to the chains during a dispatch (`NestsUnderway`) | every dispatch ends | `DispatchHandledIff` | `OneIsEnough`, `LostForGood` |

That the current thread is in RUN, and that registers survive, holds in every run without a hypothesis,
but for two callers: that of DelayThread resumes at its call (`DelayedResumesAtCall`, `DelayRepeats`), and one
that suspends itself has only its previous save (`SelfSuspendedResumes`, `RegistersLost`).

Where code and comments disagree the model follows the code. An unreadable DMA tag leaves the loop
like an exhausted guard, so it is reported as an unsupported tag with STR clear, although the comment
above `dma_resolve_ptr` says STR stays set; STR does stay set when the data of a CNT, NEXT, REF or REFS
tag is out of bounds. The comment on chain mode lists REF and REFS as unsupported; the code handles them.

## Model

| member | source | states |
|---|---|---|
| `HeapBlocks.FieldReads` | source/hw/iop_heap.c:67-69 | the masks of the live bit and of the address read those fields |
| `HeapBlocks.LiveWrites` | source/hw/iop_heap.c:155-328 | or with 1 and `& 0xFFFFFFFE` set and clear the live bit |
| `HeapBlocks.SizeWrite` | source/hw/iop_heap.c:162-165 | `w & 0x1FFFF` or-ed with `n << 17` replaces the size |
| `HeapBlocks.AddressWrite` | source/hw/iop_heap.c:164 | `w & 0xFFFF0001` or-ed with `a << 1` replaces the address |
| `HeapBlocks.ReadInfo` | source/hw/iop_heap.c:67-69 | the three macros, with their masks and shifts, read the fields of the word |
| `HeapBlocks.MakeInfo` | source/hw/iop_heap.c:190-192 | the masks and shifts that put a new word together give its address, size and live bit |
| `HeapBlocks.PackUnpack` | source/hw/iop_heap.c:67-69 | a block is read back off its packed word |
| `HeapBlocks.UnpackPack` | source/hw/iop_heap.c:67-69 | a word is rebuilt from its block exactly if its unused bit 16 is clear |
| `HeapBlocks.PackedEdits` | source/hw/iop_heap.c:155-165 | the edits of the size and of the live bit change that one field of the block |
| `HeapBlocks.PackedMove` | source/hw/iop_heap.c:164-165 | the edits of the address and then of the size give the block that is left over |
| `HeapBlocks.SameLiveSameBlocks` | source/hw/iop_heap.c:138-352 | two tilings of the arena without adjacent free blocks are equal as soon as their live blocks are |
| `HeapBlocks.FitIsInFreeBlock` | source/hw/iop_heap.c:144-257 | a range free of live blocks lies inside one single free block |
| `IopHeap.Canonical` | source/hw/iop_heap.c:138-352 | in a heap between calls, slots and table count depend on the live set alone |
| `IopHeap.LiveDisjoint` | source/hw/iop_heap.c:138-352 | live blocks never overlap and never leave the arena |
| `IopHeap.ChainBounds` | source/hw/iop_heap.c:269-293 | between calls the last table keeps its last four slots empty, the table before it does not, and there are at most 108 tables |
| `IopHeap.PlacementUnique` | source/hw/iop_heap.c:144-257 | the placement rule fixes the returned address |
| `IopHeap.RemoveUndoesExtend` | source/hw/iop_heap.c:297-352 | on live sets, freeing an allocation gives the set back |
| `IopHeap.RunDeterministic` | source/hw/iop_heap.c:138-352 | the same calls from the same live set give the same live sets throughout |
| `IopHeap.Conservation` | source/hw/iop_heap.c:397-405 | free units plus live units up to any block equal the units from the base to its end |
| `IopHeap.FreeUnitsStep` | source/hw/iop_heap.c:397-405 | a block adds its units to the free units exactly if it is free |
| `IopHeap.CarveSound` | source/hw/iop_heap.c:144-257 | cutting an allocation out of a free block keeps the tiling, adds exactly that live block and at most two slots |
| `IopHeap.MergeSound` | source/hw/iop_heap.c:328-351 | merging a freed block with its free neighbours restores the tiling |
| `IopHeap.MergeLive` | source/hw/iop_heap.c:328-351 | merging removes exactly the freed block from the live set |
| `IopHeap.GapClosed` | source/hw/iop_heap.c:342-350 | moving the later slots down over the spare ones leaves the packed merged sequence and zero words behind it |
| `IopHeap.TableSteps` | source/hw/iop_heap.c:269-293 | one table is enough to add or remove for any change of at most two blocks |
| `IopHeap.Heap.constructor` | source/hw/iop_heap.c:109-127 | one free block over units 0x200 to 0xF00 in one table |
| `IopHeap.Heap.Shuffle` | source/hw/iop_heap.c:168-173 | inserting a word moves the later words up by one and loses none |
| `IopHeap.Heap.FindFirst` | source/hw/iop_heap.c:148-152 | finds the lowest block in which anything of the size fits, or that nothing fits |
| `IopHeap.Heap.FindLast` | source/hw/iop_heap.c:176-184 | finds the highest such block, or that nothing fits |
| `IopHeap.Heap.FindLater` | source/hw/iop_heap.c:205-216 | finds the free block that holds the whole requested range, exactly if the range is free |
| `IopHeap.Heap.TakeFront` | source/hw/iop_heap.c:152-174 | the front of a free block becomes live and the rest stays free |
| `IopHeap.Heap.TakeBack` | source/hw/iop_heap.c:184-203 | the back of a free block becomes live and the rest stays free |
| `IopHeap.Heap.SplitAt` | source/hw/iop_heap.c:216-231 | a free block is cut in two at a given unit |
| `IopHeap.Heap.AllocFirst` | source/hw/iop_heap.c:148-174 | ALLOC_FIRST returns the lowest address that fits, and fails only if none does |
| `IopHeap.Heap.AllocLast` | source/hw/iop_heap.c:176-203 | ALLOC_LAST returns the highest address that fits, and fails only if none does |
| `IopHeap.Heap.AllocLater` | source/hw/iop_heap.c:205-256 | ALLOC_LATER returns exactly the requested address if it is aligned and the whole range is free, and otherwise 0 |
| `IopHeap.Heap.Maintain` | source/hw/iop_heap.c:269-293 | after a call the number of tables is again the one for the number of blocks |
| `IopHeap.Heap.DoAlloc` | source/hw/iop_heap.c:138-260 | dispatch on the flags, the size rounded up to units; a size of zero or one that wraps to zero fails |
| `IopHeap.Heap.Alloc` | source/hw/iop_heap.c:373-379 | the new live set is the old one plus the placed block, and a failure changes nothing |
| `IopHeap.Heap.CloseGap` | source/hw/iop_heap.c:342-350 | the slots after a gap move down over it |
| `IopHeap.Heap.FindBlock` | source/hw/iop_heap.c:317-322 | finds the slot of a block by address, or that there is none |
| `IopHeap.Heap.DoFree` | source/hw/iop_heap.c:297-352 | succeeds exactly for the address of a live block, and removes that block |
| `IopHeap.Heap.Coalesce` | source/hw/iop_heap.c:328-351 | the freed block joins its free neighbours on both sides |
| `IopHeap.Heap.Free` | source/hw/iop_heap.c:381-385 | success, failure and the new live set, with the state between calls restored |
| `IopHeap.Heap.AllocThenFree` | source/hw/iop_heap.c:373-385 | a successful allocation followed by its free restores every slot and table |
| `IopHeap.Heap.Perform` | source/hw/iop_heap.c:373-385 | any sequence of calls keeps the tiling and the table count, and moves the live set by the rules above |
| `IopHeap.Heap.QueryMaxFree` | source/hw/iop_heap.c:387-395 | the largest size that still fits anywhere |
| `IopHeap.Heap.QueryTotalFree` | source/hw/iop_heap.c:397-405 | the free units, which are the arena less the live units |
| `IopHeap.Heap.QueryBlockSize` | source/hw/iop_heap.c:363-412 | the size of the block that covers an address with its used or free flag, and -1 outside the arena |
| `IopHeap.Heap.SnapshotSize` | source/hw/iop_heap.c:448-453 | four bytes plus four per slot, never above 13,396 |
| `IopHeap.Heap.SnapshotSave` | source/hw/iop_heap.c:455-468 | the table count and then every word of every table |
| `IopHeap.Heap.SnapshotLoad` | source/hw/iop_heap.c:470-516 | rebuilds exactly the tables of the snapshot |
| `IopHeap.Heap.SaveThenLoad` | source/hw/iop_heap.c:455-516 | saving, losing the heap and loading restores it exactly |
| `HeapTables.LinkNext` | source/hw/iop_heap.c:97-107 | the link of every element leads to the next slot of the chain, also from one table to the next |
| `HeapTables.WriteSlot` | source/hw/iop_heap.c:168-173 | writing an element changes its slot and no other, and no link |
| `HeapTables.Grown` | source/hw/iop_heap.c:275-281 | stitching a new table to the last one adds its 31 empty slots to the walk |
| `HeapTables.Shrunk` | source/hw/iop_heap.c:286-291 | cutting the last table off takes exactly its slots away |
| `HeapTables.Chain.LastTable` | source/hw/iop_heap.c:129-134 | the loop along `next` ends at the last table |
| `HeapTables.Chain.Insert` | source/hw/iop_heap.c:168-173 | the swap loop along the element links is the insertion that the allocator makes into the sequence of slots |
| `HeapTables.Chain.Init` | source/hw/iop_heap.c:109-127 | every table is freed, and one new table holds the whole arena |
| `HeapTables.Chain.FindLast` | source/hw/iop_heap.c:176-184 | the scan along the links ends at the slot that the search on the sequence finds |
| `HeapTables.Chain.TakeFront` | source/hw/iop_heap.c:152-174 | an element taken at the front and the rest inserted behind it, in a later table if need be, as on the sequence |
| `HeapTables.Chain.TakeBack` | source/hw/iop_heap.c:184-203 | the same at the back |
| `HeapTables.Chain.SplitAt` | source/hw/iop_heap.c:216-231 | cutting an element in two, as on the sequence |
| `HeapTables.Chain.Alloc` | source/hw/iop_heap.c:373-379 | on any tables whatsoever, an allocation along the links returns and leaves what it does on the sequence of slots |
| `HeapTables.Chain.JoinNext` | source/hw/iop_heap.c:328-335 | joining with the following element, also across tables |
| `HeapTables.Chain.JoinPrevious` | source/hw/iop_heap.c:337-341 | joining with the element before |
| `HeapTables.Chain.CloseGap` | source/hw/iop_heap.c:343-350 | the copy loop along two references closes the gap in the walk |
| `HeapTables.Chain.Free` | source/hw/iop_heap.c:381-385 | on any tables whatsoever, a free along the links returns and leaves what it does on the sequence of slots |
| `HeapTables.Chain.Maintain` | source/hw/iop_heap.c:269-293 | growth and shrinkage of the linked tables are those of the sequence of slots |
| `HeapTables.Chain.Walk` | source/hw/iop_heap.c:354-370 | one walk along the element links meets each slot of each table once and in order |
| `HeapTables.Chain.SnapshotSave` | source/hw/iop_heap.c:455-468 | the table-by-table loops save the slots of that walk |
| `HeapTables.Chain.SnapshotLoad` | source/hw/iop_heap.c:470-516 | the rebuilt tables are linked again and walk as the saved words |
| `HeapTables.Lockstep` | source/hw/iop_heap.c:138-385 | any history of calls on the linked tables returns what it does on the sequence of slots, call by call, keeps the two alike, and follows the rules on live sets alone |
| `HeapTables.RunBoth` | source/hw/iop_heap.c:109-385 | and so from initialisation on, starting with no live block |
| `HeapTables.SaveThenLoad` | source/hw/iop_heap.c:455-516 | a chain saved and rebuilt elsewhere walks alike |
| `ThreadSafety.PickIsBest` | source/hw/iop_hle_thread.c:233-249 | the scan returns the runnable thread that goes first by priority, ready number and table order, among all that do not have both numbers at 0xFFFFFFFF |
| `ThreadSafety.RescheduleSwitches` | source/hw/iop_hle_thread.c:257-329 | a reschedule changes only the status and saved registers of the outgoing and the incoming thread |
| `ThreadSafety.SwitchSound` | source/hw/iop_hle_thread.c:257-329 | after a reschedule with nobody at priority 0xFFFFFFFF at most one thread is RUN, it is the current one, and it is the best runnable one, whatever the ready counter |
| `ThreadSafety.EffectGood` | source/hw/iop_hle_thread.c:483-1343 | every gate leaves other threads' registers and waits alone, and leaves its caller running, ended, or waiting with its return in place |
| `ThreadSafety.RunSane` | source/hw/iop_hle_thread.c:483-1389 | in every run from reset whatsoever, the current thread is in RUN |
| `ThreadSafety.StepScheduled` | source/hw/iop_hle_thread.c:483-1389 | every gate, clock tick or stretch of guest code keeps the scheduler sound, and a gate or a tick that reschedules leaves the best thread current |
| `ThreadSafety.RunScheduled` | source/hw/iop_hle_thread.c:483-1389 | in every run from reset without self-suspension and without priority 0xFFFFFFFF at most one thread is RUN and it is the current one |
| `ThreadSafety.RescheduleViews` | source/hw/iop_hle_thread.c:199-329 | a switch changes no thread's registers, except that a thread no longer in RUN falls back on what was saved for it |
| `ThreadSafety.ContextsKept` | source/hw/iop_hle_thread.c:782-1217 | a gate other than DelayThread leaves its caller's registers as a plain return, with $v0 = 0 if it blocked, and every other thread's untouched |
| `ThreadSafety.ResumesWithOwnRegisters` | source/hw/iop_hle_thread.c:199-329 | over any run in which a thread is not current, its registers stay exactly what they were when it lost the processor |
| `ThreadSafety.BlockedResumes` | source/hw/iop_hle_thread.c:782-1217 | a thread that blocks in SleepThread, WaitSema or WaitEventFlag and is current again after any run is at its return address, with exactly its own registers and $v0 = 0 |
| `ThreadSafety.PreemptedResumes` | source/hw/iop_hle_thread.c:257-329 | a thread that loses the processor in any gate that leaves it runnable has, when it is current again after any run, exactly the registers that gate left |
| `ThreadSafety.InterruptedResumes` | source/hw/iop_hle_thread.c:1345-1389 | and a thread that loses it to the clock has exactly the registers it had |
| `FlagWakeups.WakeFlagComplete` | source/hw/iop_hle_thread.c:376-403 | after the wake scan no waiter of the flag has a satisfied condition, also when a clearing waiter empties the bits midway |
| `FlagWakeups.RaiseRightly` | source/hw/iop_hle_thread.c:1109-1125 | SetEventFlag leaves nobody waiting for bits that are there |
| `FlagWakeups.DropRightly` | source/hw/iop_hle_thread.c:1077-1108 | DeleteEventFlag releases its waiters and strands nobody |
| `FlagWakeups.KeepRightly` | source/hw/iop_hle_thread.c:1126-1145 | ClearEventFlag only removes bits, so satisfies nobody |
| `FlagWakeups.AwaitRightly` | source/hw/iop_hle_thread.c:1146-1217 | a thread blocks only on a condition that is false |
| `FlagWakeups.StepRightlyIff` | source/hw/iop_hle_thread.c:483-1389 | an event keeps it so that no visible waiter's condition holds, exactly unless it resumes a suspended waiter whose wait is over |
| `FlagWakeups.NoLostWakeupsIff` | source/hw/iop_hle_thread.c:376-874 | in a run from reset nobody ever waits for a condition that holds or a flag that is gone, if and only if no suspended flag waiter is ever resumed with its wait over |
| `FlagWakeups.NoLostWakeups` | source/hw/iop_hle_thread.c:376-403 | so in every run that suspends no flag waiter, no thread waits for a condition that already holds |
| `FlagWakeups.ResumeStrands` | source/hw/iop_hle_thread.c:860-874 | resuming such a waiter does strand it |
| `FlagLaws.SetServes` | source/hw/iop_hle_thread.c:376-1125 | SetEventFlag with the old bits and the new ones wakes exactly the waiters in sight that they satisfy, up to and including the first that asks to clear, numbers them in table order, reports the bits to each that gave an address, and leaves all bits or, after a clear, none |
| `FlagLaws.SetIdle` | source/hw/iop_hle_thread.c:1109-1125 | without a flag or without bits nothing changes but the answer |
| `FlagLaws.WaitServes` | source/hw/iop_hle_thread.c:1146-1217 | a wait is refused, or served at once with all bits reported and all of them gone if it asks to clear, or blocks and is counted |
| `FlagLaws.PollServes` | source/hw/iop_hle_thread.c:1218-1236 | a poll is served in the same way or refused |
| `FlagLaws.EarlyOrLate` | source/hw/iop_hle_thread.c:376-1217 | whether a thread waits before the bits are set or after makes no difference to the flag and to what is reported |
| `FlagLaws.DropServes` | source/hw/iop_hle_thread.c:1077-1108 | deleting a flag readies every waiter in sight, in table order, and nobody else |
| `FlagLaws.KeepServes` | source/hw/iop_hle_thread.c:1126-1145 | clearing keeps exactly the bits of the mask |
| `FlagLaws.NewServes` | source/hw/iop_hle_thread.c:1054-1076 | the first free flag starts with the given attribute and bits, without waiters |
| `ThreadHistory.RunLives` | source/hw/iop_hle_thread.c:483-874 | in every run a thread exists, lives and is suspended exactly as the creating, starting, ending, suspending and resuming calls say |
| `ThreadHistory.RunCredited` | source/hw/iop_hle_thread.c:782-846 | in every run the wakeups owed to a thread are the WakeupThread calls that found it not asleep, less the sleeps it came through, less what was cancelled, modulo 2^32, since it was made |
| `ThreadHistory.SleepBlocksIff` | source/hw/iop_hle_thread.c:782-815 | after any run SleepThread blocks its caller exactly if nothing is owed to it, and otherwise returns at once |
| `ThreadHistory.CancelReports` | source/hw/iop_hle_thread.c:835-846 | after any run CancelWakeupThread reports exactly what is owed and leaves nothing |
| `ThreadHistory.WakeupReadiesIff` | source/hw/iop_hle_thread.c:816-834 | WakeupThread readies a thread exactly if it sleeps in sight, and otherwise is owed to it |
| `ThreadHistory.RunAsSaid` | source/hw/iop_hle_thread.c:483-714 | in every run a thread has the entry point it was made with and the priority it was last given |
| `ThreadGates.GateReplies` | source/hw/iop_hle_thread.c:483-1343 | every gate that refuses answers -1 and changes nothing else, every other answers the right number, and either way the caller sees a plain return |
| `ThreadGates.YieldsIff` | source/hw/iop_hle_thread.c:483-1343 | exactly the gates that may ready a thread, change a priority or block give the processor away, and not when called from an interrupt |
| `ThreadGates.BestRuns` | source/hw/iop_hle_thread.c:483-1343 | after each of these, in every run without self-suspension and priority 0xFFFFFFFF, the best runnable thread has the processor, and the system is idle exactly if there is none |
| `ThreadGates.GateQueues` | source/hw/iop_hle_thread.c:483-1343 | a thread that a gate makes runnable is READY with the next number, and one that was runnable keeps its number |
| `ThreadGates.GateReadies` | source/hw/iop_hle_thread.c:591-874 | a thread that is started or released is ready at the end of the queue and waits for nothing, and one that is resumed goes on as it was |
| `ThreadGates.SignalServes` | source/hw/iop_hle_thread.c:336-981 | a signal readies exactly the first waiter in line, which bit 0 of the attribute makes the most urgent one, or counts up to the maximum if nobody waits |
| `ThreadGates.FirstRun` | source/hw/iop_hle_thread.c:553-639 | in every run a started thread that first gets the processor is at the entry point it was made with, with its arguments, the starter's $gp, its own stack top and the exit gate as $ra, and zero elsewhere |
| `ThreadGates.RotateMoves` | source/hw/iop_hle_thread.c:689-707 | rotation moves exactly the foremost runnable thread of the priority to the end of the queue |
| `ThreadGates.ScanEnds` | source/hw/iop_hle_thread.c:1345-1380 | a tick readies exactly the delayed threads that are due, numbered in table order |
| `ThreadGates.DelayEndsIff` | source/hw/iop_hle_thread.c:875-1389 | a thread that still waits out its delay after any run is woken by exactly the ticks no earlier than its time, at 33.8688 cycles to the microsecond |
| `ObjectHistory.SemaAsMade` | source/hw/iop_hle_thread.c:929-1032 | in every run a semaphore has the attribute, initial count and maximum it was made with |
| `ObjectHistory.FlagAsMade` | source/hw/iop_hle_thread.c:1054-1236 | and an event flag its attribute |
| `ObjectHistory.CountIsHighest` | source/hw/iop_hle_thread.c:75-587 | in every run the thread count is the highest number that a thread has had |
| `SemaLedger.BestWaiterIsFirst` | source/hw/iop_hle_thread.c:336-365 | the released waiter comes before every other one in the wait order |
| `SemaLedger.PostBalanced` | source/hw/iop_hle_thread.c:967-981 | a signal adds one accepted signal and either passes it on at once or counts it up to the maximum |
| `SemaLedger.AcquireBalanced` | source/hw/iop_hle_thread.c:982-1020 | a wait is granted from the count or joins the end of the queue |
| `SemaLedger.ReleaseBalanced` | source/hw/iop_hle_thread.c:715-735 | ReleaseWaitThread takes the thread out of the queue and out of the waiter count |
| `SemaLedger.PollBalanced` | source/hw/iop_hle_thread.c:1021-1032 | a poll is granted exactly from a positive count |
| `SemaLedger.QueueLength` | source/hw/iop_hle_thread.c:336-365 | the length of a wait queue is the number of threads blocked on the semaphore |
| `SemaLedger.EffectBalanced` | source/hw/iop_hle_thread.c:336-1032 | every fair gate moves the semaphore exactly as its ledger says |
| `SemaLedger.EffectBalancedIff` | source/hw/iop_hle_thread.c:336-1032 | and a gate leaves books that some ledger fits exactly if it is fair: it suspends or terminates no waiter of the semaphore, deletes it without waiters, makes it with its count in range, and waits on it from a thread |
| `SemaLedger.RunBalanced` | source/hw/iop_hle_thread.c:336-1032 | in every fair run 0 <= count <= max, the waiter count is the number of threads blocked there, a positive count means no waiters, and initial + accepted = count + granted |
| `SemaLedger.RunBalancedIff` | source/hw/iop_hle_thread.c:336-1032 | in a run from reset the books are right throughout if and only if every call is fair |
| `SemaOrder.SignalReleases` | source/hw/iop_hle_thread.c:336-365 | a signal releases the head of the queue, or with the priority attribute the first of the most urgent |
| `SemaOrder.EffectInOrderIff` | source/hw/iop_hle_thread.c:336-1032 | a fair gate keeps the waiters numbered in the order in which they blocked, exactly unless it makes one join behind a number at or above the ready counter |
| `SemaOrder.RunInOrderIff` | source/hw/iop_hle_thread.c:336-1032 | in every fair run from reset, however often the counter wraps, the waiters are numbered in blocking order throughout if and only if no wait ever joins behind a number at or above the counter |
| `SemaOrder.EffectOrdered` | source/hw/iop_hle_thread.c:336-1032 | a fair gate that does not make the counter go back keeps the order, and every waiter's number below the counter |
| `SemaOrder.RunOrdered` | source/hw/iop_hle_thread.c:336-1032 | so in every fair run in which the counter never goes back the queue is in blocking order |
| `ThreadRunners.PassedOverIff` | source/hw/iop_hle_thread.c:233-249 | the scan passes a runnable thread over exactly if another goes before it, or it has both priority and ready number 0xFFFFFFFF |
| `ThreadRunners.FindsNobodyIff` | source/hw/iop_hle_thread.c:257-329 | a reschedule finds nobody while its caller is in RUN exactly if every runnable thread has both |
| `ThreadRunners.StepSplitsIff` | source/hw/iop_hle_thread.c:483-1389 | an event keeps it so that only the current thread is in RUN, exactly unless it resumes a self-suspended thread that the scan then passes over, or its reschedule finds nobody while the caller is in RUN |
| `ThreadRunners.OneRunnerIff` | source/hw/iop_hle_thread.c:483-1389 | in a run from reset, whatever it calls, every thread in RUN is the current one throughout if and only if neither ever happens |
| `ThreadLimits.PickedIff` | source/hw/iop_hle_thread.c:233-249 | the scan finds the best thread exactly unless every runnable thread has both priority and ready number 0xFFFFFFFF |
| `ThreadLimits.DelayKeepsReturnIff` | source/hw/iop_hle_thread.c:875-907 | DelayThread resumes its caller with the registers of a return exactly if those of the call already looked like one |
| `ThreadLimits.DelayedResumesAtCall` | source/hw/iop_hle_thread.c:875-907 | in every run a delayed thread that is current again is at its call, with unchanged registers |
| `ThreadLimits.SelfSuspendKeepsReturnIff` | source/hw/iop_hle_thread.c:847-859 | a self-suspended thread has only its previously saved registers, which are those of a return exactly if they happen to be |
| `ThreadLimits.SelfSuspendedResumes` | source/hw/iop_hle_thread.c:847-874 | in every run a self-suspended thread that is current again has only the registers it had saved before |
| `ThreadLimits.SelfSuspendThenResumeIff` | source/hw/iop_hle_thread.c:847-874 | a resume directly after a self-suspension leaves the scheduler sound exactly if that thread goes before the running one by priority, ready number and table order, or none is running |
| `ThreadLimits.QueueOrderKeptIff` | source/hw/iop_hle_thread.c:233-249 | two threads made ready one directly after the other are numbered in that order exactly unless the counter is at its last value |
| `ThreadStacks.StackGrantedIff` | source/hw/iop_hle_thread.c:553-587 | an accepted CreateThread gives a large enough stack inside the arena exactly if the requested size does not wrap |
| `ThreadStacks.CreateKeepsStacks` | source/hw/iop_hle_thread.c:553-587 | one CreateThread that is refused or does not wrap keeps all stacks disjoint and inside the arena |
| `ThreadStacks.StepStacksIff` | source/hw/iop_hle_thread.c:483-1389 | an event keeps them so and grants what it accepts, exactly unless it accepts a CreateThread that wraps |
| `ThreadStacks.StacksIff` | source/hw/iop_hle_thread.c:483-1389 | in a run from reset the stacks are disjoint parts of the arena and every accepted CreateThread got what it asked for, throughout, if and only if none that wraps is accepted |
| `ThreadScenarios.WaiterLost` | source/hw/iop_hle_thread.c:651-966 | a run from reset in which a semaphore waiter is suspended or terminated, or its semaphore deleted, after which no books fit |
| `ThreadScenarios.MadeOutOfRange` | source/hw/iop_hle_thread.c:929-953 | the same for a count out of range |
| `ThreadScenarios.NobodyWaits` | source/hw/iop_hle_thread.c:982-1020 | the same for a wait while no thread is current |
| `ThreadScenarios.TwoRunners` | source/hw/iop_hle_thread.c:847-874 | a run from reset in which a self-suspended thread comes back as a second one in RUN |
| `ThreadScenarios.WakeupLost` | source/hw/iop_hle_thread.c:376-403 | a run from reset in which a suspended waiter misses its bits and then waits for them |
| `ThreadScenarios.PassedOver` | source/hw/iop_hle_thread.c:233-249 | a run from reset in which the only runnable thread is not seen by the scan |
| `ThreadScenarios.OrderLost` | source/hw/iop_hle_thread.c:982-1020 | a run from reset in which the ready counter wraps between two waits and the later one comes first |
| `ThreadScenarios.RegistersLost` | source/hw/iop_hle_thread.c:847-874 | a run from reset in which a thread suspends itself with any registers and comes back with all of them zero |
| `ThreadScenarios.DelayRepeats` | source/hw/iop_hle_thread.c:875-907 | a run from reset in which a delayed thread is back at its call, with any registers and delay |
| `ThreadScenarios.NoStack` | source/hw/iop_hle_thread.c:553-587 | a run from reset in which a size that wraps is accepted and given a stack of no bytes |
| `ThreadRecords.PhaseBits` | include/core/hw/iop_hle_thread.h:223-228 | of a record in use exactly the bit of its phase is set among RUN, READY, WAIT and DORMANT |
| `ThreadRecords.StatusSuspend` | source/hw/iop_hle_thread.c:847-859 | or-ing SUSPEND into the status word keeps the phase bit of a started thread and suspends it |
| `ThreadRecords.StatusResume` | source/hw/iop_hle_thread.c:860-874 | `status &= ~SUSPEND` keeps the phase bit and never gives 0, so the branch for 0 is dead |
| `ThreadRecords.SharedIff` | source/hw/iop_hle_thread.c:386-391 | the AND and OR tests on 32-bit patterns are the match rule on sets of bits |
| `ThreadRecords.AlignMask` | source/hw/iop_hle_thread.c:568-617 | the masks `~15` and `~7` round down to 16 and 8 |
| `ThreadKernel.Kernel.constructor` | source/hw/iop_hle_thread.c:96-100 | the reset state |
| `ThreadKernel.Kernel.PickNextReady` | source/hw/iop_hle_thread.c:233-249 | the loop over status words is the specified choice |
| `ThreadKernel.Kernel.Reschedule` | source/hw/iop_hle_thread.c:257-329 | idle, switch or keep running, with the contexts saved and loaded as specified |
| `ThreadKernel.Kernel.FindFreeThread` | source/hw/iop_hle_thread.c:121-127 | the slot loop finds the first free thread record |
| `ThreadKernel.Kernel.CreateThread` | source/hw/iop_hle_thread.c:553-587 | slot loop, masked alignment and 32-bit stack arithmetic give the specified thread, or failure without change |
| `ThreadKernel.Kernel.StartRegs` | source/hw/iop_hle_thread.c:603-639 | the masked stack top and the fresh registers are those specified |
| `ThreadKernel.Kernel.FindEarliest` | source/hw/iop_hle_thread.c:689-707 | the loop finds the head of a priority's ready queue |
| `ThreadKernel.Kernel.Unsuspend` | source/hw/iop_hle_thread.c:860-872 | clearing the bit and the test for READY move the thread as specified, and the test for 0 never holds |
| `ThreadKernel.Kernel.SuspendThread` | source/hw/iop_hle_thread.c:847-859 | the OR into the status word is the specified suspension |
| `ThreadKernel.Kernel.ResumeThread` | source/hw/iop_hle_thread.c:860-874 | the bit test and the mask are the specified resumption |
| `ThreadKernel.Kernel.WakeDelayed` | source/hw/iop_hle_thread.c:1345-1380 | the loop wakes exactly the delayed threads that are due, and reports whether there was one |
| `ThreadKernel.Kernel.Tick` | source/hw/iop_hle_thread.c:1345-1389 | a tick is the specified clock event |
| `ThreadKernel.Kernel.FindFreeSema` | source/hw/iop_hle_thread.c:129-135 | the slot loop finds the first free semaphore |
| `ThreadKernel.Kernel.FindWaiter` | source/hw/iop_hle_thread.c:336-365 | the loop with its bit test finds the specified waiter |
| `ThreadKernel.Kernel.SignalSema` | source/hw/iop_hle_thread.c:967-981 | releases one waiter or counts up, and reschedules unless called from an interrupt |
| `ThreadKernel.Kernel.FindFreeFlag` | source/hw/iop_hle_thread.c:143-149 | the slot loop finds the first free flag |
| `ThreadKernel.Kernel.DeleteEventFlag` | source/hw/iop_hle_thread.c:1077-1108 | the release loop frees every waiter, and the slot is freed |
| `ThreadKernel.Kernel.WakeFlagWaiters` | source/hw/iop_hle_thread.c:376-403 | the scan on 32-bit patterns with its early exit is the full scan on sets |
| `ThreadKernel.Kernel.SetEventFlag` | source/hw/iop_hle_thread.c:1109-1125 | the OR raises the bits and wakes as specified |
| `ThreadKernel.Kernel.ClearEventFlag` | source/hw/iop_hle_thread.c:1126-1145 | the AND with the mask keeps exactly its bits |
| `ThreadKernel.Kernel.WaitEventFlag` | source/hw/iop_hle_thread.c:1146-1217 | the tests of the attribute, mode and pattern words take, refuse or block as specified |
| `ThreadKernel.Kernel.PollEventFlag` | source/hw/iop_hle_thread.c:1218-1236 | the same tests take a satisfied condition or fail |
| `ThreadKernel.Kernel.Handle` | source/hw/iop_hle_thread.c:483-1343 | every gate, on words, is the step specified for it, after the root thread is in place |
| `TriangleCoverage.EdgeSum` | source/hw/gif.c:91-94 | the three edge values of a point add up to the area |
| `TriangleCoverage.Barycentric` | source/hw/gif.c:756-766 | a point is the mean of the vertices weighted by its edge values |
| `TriangleCoverage.InsideInBox` | source/hw/gif.c:687-704 | a point that passes the three sign tests lies in the bounding box of the vertices |
| `TriangleCoverage.InsideAnyOrder` | source/hw/gif.c:756-766 | the covered points are the same for all six vertex orders |
| `TriangleCoverage.InsideIffMean` | source/hw/gif.c:756-766 | the sign tests pass exactly the means of the vertices with non-negative integer weights, which are the points of the closed triangle, and none if the vertices lie on one line |
| `TriangleCoverage.EdgesDrawn` | source/hw/gif.c:756-766 | every vertex and every lattice point of an edge is such a mean |
| `TriangleCoverage.Coordinate` | source/hw/gif.c:1292-1297 | a kicked coordinate is the whole part of a sixteenth of field less offset, and lies in -4096..4095 |
| `TriangleCoverage.Kicked` | source/hw/gif.c:1292-1297 | so is each coordinate of a kicked vertex, x from the x fields and y from the y fields |
| `TriangleCoverage.EdgeFits` | source/hw/gif.c:91-94 | no product or difference of an edge value leaves 32 bits for such coordinates |
| `TriangleCoverage.ScanFits` | source/hw/gif.c:756-766 | nor does any edge value of a scanned point |
| `TriangleCoverage.KickedScanFits` | source/hw/gif.c:687-766 | so no triangle of kicked vertices makes the scan leave 32 bits |
| `TriangleCoverage.CoveredInBox` | source/hw/gif.c:589-609 | clamping to the screen and the scissor area drops no covered pixel |
| `TriangleCoverage.Rasterize` | source/hw/gif.c:687-766 | the scan yields exactly the points of the closed triangle that are on screen and in the scissor area, bounds included, each once, in raster order |
| `GifStream.RasterOrder` | source/hw/gif.c:2246-2276 | each pixel of a transfer lands where the cursor is, along its row and then row by row, and the transfer closes after exactly the room left, also with a cursor outside a rectangle that was shrunk |
| `GifStream.InRasterOrder` | source/hw/gif.c:2246-2276 | inside the rectangle that is pixel p mod width, p div width, and the room is what is left of width times height |
| `GifStream.OpenIff` | source/hw/gif.c:2246-2276 | a transfer is open after n pixels exactly if it was open and n is less than its room |
| `GifStream.Upload` | source/hw/gif.c:2150-2276 | after the four register writes of an upload, from any state, the next width times height pixels land at their places in the rectangle and no more do |
| `GifStream.ImageConcat` | source/hw/gif.c:2246-2276 | pixel data in two pieces is the data in one |
| `GifStream.PackedLog` | source/hw/gif.c:2492-2554 | a PACKED body writes its descriptors cyclically, one quadword each, in order |
| `GifStream.RegListLog` | source/hw/gif.c:2386-2406 | a REGLIST body writes two 64-bit values to a quadword, in order, and cannot reach the transfer registers |
| `GifStream.Used` | source/hw/gif.c:2278-2554 | a packet takes at least its tag and never more than the buffer |
| `GifTags.TagReadBack` | source/hw/gif.c:2282-2325 | every field of a tag put together from its fields is read back, a register count of zero as sixteen |
| `GifTags.CodeReadBack` | source/hw/gif.c:2386-2406 | descriptor k is nibble k of the 64-bit REGS field |
| `GifTags.PackedPacket` | source/hw/gif.c:2492-2554 | a PACKED packet of given fields writes its primitive and then its descriptors in turn, and 14 names its register in the data |
| `GifTags.ListPacket` | source/hw/gif.c:2386-2406 | a REGLIST packet of given fields writes two values to a quadword, low half first |
| `GifTags.OpensIff` | source/hw/gif.c:2150-2245 | the four register writes open a transfer exactly for direction host to local and a 32-bit destination, with the cursor at the corner of the new rectangle |
| `GifTags.OthersSpare` | source/hw/gif.c:2150-2245 | a write to any other register leaves the transfer alone |
| `GifTags.UploadDrawn` | source/hw/gif.c:2150-2646 | a whole upload, from the tag of the register writes to the last pixel of the IMAGE packet, draws exactly the first width times height pixels at their places |
| `GifSplitting.PacketLocal` | source/hw/gif.c:2278-2554 | a complete packet takes exactly the size of its mode and depends on nothing beyond it |
| `GifSplitting.StreamPackets` | source/hw/gif.c:2610-2645 | a buffer of whole packets is those packets one after the other |
| `GifSplitting.StreamStops` | source/hw/gif.c:2610-2645 | the first packet with EOP is the last one read |
| `GifSplitting.SplitImage` | source/hw/gif.c:2408-2490 | an IMAGE packet cut into any number of calls gives the same pixels, cursor and registers as one call |
| `GifSplitting.CarryIff` | source/hw/gif.c:2462-2484 | a short buffer leaves the missing quadwords owed exactly if the transfer is open, has room, and at most 4096 are missing |
| `GifSplitting.DataOrTag` | source/hw/gif.c:2593-2608 | the next quadword after a short buffer is taken for data exactly if it is owed, and otherwise becomes a tag |
| `GifSplitting.FeedCarry` | source/hw/gif.c:2593-2608 | between calls the carry is at most 4096 and only ever owed to an open transfer |
| `GifParser.Gif.constructor` | source/hw/gif.c:30-64 | the reset state |
| `GifParser.Gif.WritePixelQwords` | source/hw/gif.c:2246-2276 | both loops, with their early exits, write the data until the rectangle is full |
| `GifParser.Gif.ProcessRegList` | source/hw/gif.c:2386-2406 | the REGLIST loop and what it takes of the buffer |
| `GifParser.Gif.ProcessPacked` | source/hw/gif.c:2492-2554 | the two PACKED loops and what they take of the buffer |
| `GifParser.Gif.ProcessImage` | source/hw/gif.c:2408-2490 | IMAGE data with the carry recorded or dropped |
| `GifParser.Gif.ProcessOnePacket` | source/hw/gif.c:2278-2554 | nothing from an empty buffer, and otherwise a tag and what its packet needs |
| `GifParser.Gif.DrainCarry` | source/hw/gif.c:2593-2608 | owed pixels first, and the carry dropped once the transfer is closed |
| `GifParser.Gif.ProcessPackets` | source/hw/gif.c:2610-2645 | packets until EOP or the end of the buffer, ending on every input |
| `GifParser.Gif.ProcessQuadwords` | source/hw/gif.c:2556-2646 | a call is the owed pixels and then the packets |
| `VertexQueue.Queue.constructor` | source/hw/gif.c:30-64 | an empty queue of points |
| `VertexQueue.Queue.Reset` | source/hw/gif.c:83 | a PRIM write empties the queue and draws nothing |
| `VertexQueue.Queue.Enter` | source/hw/gif.c:1264-1489 | each vertex enters the queue and, with a drawing kick, draws exactly what it completes |
| `VertexQueue.Queue.EnterLine` | source/hw/gif.c:1314-1354 | lines in pairs, line strips by neighbours |
| `VertexQueue.Queue.EnterTriangle` | source/hw/gif.c:1356-1381 | independent triangles in groups of three |
| `VertexQueue.Queue.EnterStrip` | source/hw/gif.c:1382-1412 | strips from the last three vertices |
| `VertexQueue.Queue.EnterFan` | source/hw/gif.c:1413-1451 | fans from the first vertex and the last two |
| `VertexQueue.Queue.EnterSprite` | source/hw/gif.c:1453-1489 | sprites in pairs; the reserved type queues but never draws |
| `VertexQueue.Queue.Run` | source/hw/gif.c:1264-1489 | any stream of PRIM writes and kicks draws exactly its list definition |
| `VertexQueue.FreshStart` | source/hw/gif.c:83 | what is drawn after a PRIM write does not depend on anything before it |
| `VertexQueue.SegmentPicture` | source/hw/gif.c:1299-1489 | with every kick drawing, a segment is the written-out strip, fan or groups of its vertices |
| `StatusStack.PoppedBits` | source/hw/iop_excb.c:244 | a pop moves bits 2 to 5 of the status down to 0 to 3 and keeps bits 4 to 31 |
| `StatusStack.PushedBits` | source/core/iop/iop_core.c:831 | a push moves bits 0 to 3 up to 2 to 5, clears bits 0 and 1 and keeps bits 6 to 31 |
| `StatusStack.PopMask` | source/hw/iop_excb.c:244 | the masks and shift of the code are that pop |
| `StatusStack.PushLeaves` | source/core/iop/iop_core.c:831 | an exception entry leaves the stack as `PopUndoesPush` asks |
| `StatusStack.PopUndoesPush` | source/hw/iop_excb.c:244 | a pop gives back bits 0 to 3 as they were before the exception, whatever else the handler did to the status |
| `StatusStack.VectorBit` | source/hw/iop_excb.c:202-207 | bit 22 selects the boot vector |
| `ExceptionDispatch.AdvanceStep` | source/hw/iop_excb.c:163-193 | advancing enters exactly the next candidate of the flattened order, or reports that there is none |
| `ExceptionDispatch.ChainEntered` | source/hw/iop_excb.c:127-140 | starting at a priority enters the first candidate from there on, or reports that every chain is empty |
| `ExceptionDispatch.Offered` | source/hw/iop_excb.c:209-269 | after k refusals the k-th candidate of the flattened order is entered, returning to the trampoline |
| `ExceptionDispatch.ClaimEnds` | source/hw/iop_excb.c:227-250 | the first claim resumes at the interrupted address with that one interrupt acknowledged, and with the status stack moved down, to where it was before the exception if the handlers left it alone |
| `ExceptionDispatch.NobodyClaims` | source/hw/iop_excb.c:252-269 | when all refuse, the last refusal goes to 0xBFC00180 or 0x80000080 by bit 22 of the status, which stays as it is, as do the pending interrupts |
| `ExceptionDispatch.EveryRunEnds` | source/hw/iop_excb.c:209-269 | no dispatch outlasts as many answers as there are candidates |
| `ExceptionCalls.CallOrder` | source/hw/iop_excb.c:127-269 | an interrupt calls, one refusal after another, exactly the functions that the nodes in memory list, by priority, list order and first before second |
| `ExceptionNesting.ReturnHandledIff` | source/hw/iop_excb.c:202-269 | over any steps inside a handler function, interrupts nested to any depth among them, its return to the trampoline is handled exactly if none was offered to the chains, and otherwise changes nothing |
| `ExceptionNesting.DispatchHandledIff` | source/hw/iop_excb.c:202-269 | every return of a dispatch is handled until it ends, if and only if no interrupt is offered to the chains while it is under way |
| `ExceptionNesting.UnnestedServes` | source/hw/iop_excb.c:209-269 | without such interrupts a dispatch is the one given by the answers of its functions alone |
| `ExceptionNesting.OneIsEnough` | source/hw/iop_excb.c:202-269 | one nested interrupt, claimed at once, is enough to lose any dispatch under way |
| `ExceptionNesting.LostForGood` | source/hw/iop_excb.c:209-269 | once lost, no later return of its functions is handled |
| `ExceptionChains.EnqueueConsIff` | source/hw/iop_excb.c:58-76 | enqueue puts the node in front of its chain and leaves the other chains alone, exactly if the node is not null and every chain that already holds it goes on behind it as that chain does |
| `ExceptionChains.DequeueTailIff` | source/hw/iop_excb.c:78-103 | dequeue takes the head off its chain and leaves all chains alone for any other node, exactly unless node zero is taken from an empty chain while address zero holds another word |
| `ExceptionChains.DequeueUndoes` | source/hw/iop_excb.c:58-103 | dequeuing the node just enqueued restores memory but for the node's own link |
| `ExceptionChains.Kernel.SysEnqIntRP` | source/hw/iop_excb.c:58-76 | whatever the chains in memory are, the node is now in front of its chain and the others are as before, exactly on that condition |
| `ExceptionChains.Kernel.SysDeqIntRP` | source/hw/iop_excb.c:78-103 | whatever the chains in memory are, they are as before less the node as head, with the one exception for node zero |
| `ExceptionChains.Kernel.FindNextChain` | source/hw/iop_excb.c:127-140 | the first non-empty chain at or after a priority |
| `ExceptionChains.Kernel.AdvanceAndEnter` | source/hw/iop_excb.c:163-193 | second function, next node or next chain |
| `ExceptionChains.Kernel.DispatchInterrupt` | source/hw/iop_excb.c:209-225 | starts a dispatch, or changes nothing if every chain is empty |
| `ExceptionChains.Kernel.TryHandle` | source/hw/iop_excb.c:202-269 | handles a return to the trampoline of a dispatch under way, and nothing else |
| `DmaTags.TagRead` | source/hw/dma.c:170-184 | a tag written out as bytes is read back |
| `DmaTags.ReadIsTag` | source/hw/dma.c:170-184 | and whatever is read was written out |
| `DmaTags.KickListed` | source/hw/dma.c:216-296 | for any list of at most 4096 links written out in memory, each with the next where its kind demands, a kick delivers exactly their data in order, counts it, clears STR, signals completion and leaves TADR where the last link demands |
| `DmaTags.KickFineIff` | source/hw/dma.c:216-303 | a kick reports no error exactly if memory holds such a list |
| `DmaTags.KickGivesUp` | source/hw/dma.c:298-303 | a list that goes on after 4096 links is given up with an error |
| `DmaTags.KickBreaksOff` | source/hw/dma.c:222-296 | so is one that comes to no readable tag, or to a CALL or RET |
| `DmaTags.KickLacks` | source/hw/dma.c:227-296 | missing data leaves TADR at a link that goes on, with STR set and no signal, and still completes a last one |
| `DmaTags.KickChainOf` | source/hw/dma.c:216-296 | the controller on such a list |
| `DmaChain.ChainRefined` | source/hw/dma.c:216-296 | a chain of at most 4096 tags delivers exactly the blocks of its recursive meaning in order, counts them, clears STR and signals completion |
| `DmaChain.FineIffMeant` | source/hw/dma.c:216-303 | a kick reports no error exactly for such a chain |
| `DmaChain.KickEnds` | source/hw/dma.c:216-303 | every kick ends after the tags that continue the chain, at one that does not, or at the limit |
| `DmaChain.EndlessFails` | source/hw/dma.c:298-303 | a chain still going after 4096 tags ends in an error with STR clear and no completion signal |
| `DmaChain.CycleIsEndless` | source/hw/dma.c:216-303 | a chain that returns to one of its tags goes on for any number of tags |
| `DmaChain.StuckIff` | source/hw/dma.c:216-303 | STR stays set exactly when the walk stops at a continuing tag whose data is out of bounds |
| `DmaChain.ClearStart` | source/hw/dma.c:216-303 | clears STR and keeps every other bit |
| `DmaChain.ResolveBytes` | source/hw/dma.c:102-119 | a block is exactly the bytes that its addresses name in RAM or scratchpad, and fails exactly if one is missing or the range leaves its area |
| `DmaChain.Dmac.TransferQuadwords` | source/hw/dma.c:145-156 | delivers the block and counts it, or changes nothing |
| `DmaChain.Dmac.ProcessTag` | source/hw/dma.c:227-296 | each tag type, with its data in or out of bounds |
| `DmaChain.Dmac.WalkTags` | source/hw/dma.c:216-303 | the guarded loop is the specified walk |
| `DmaChain.Dmac.KickChain` | source/hw/dma.c:216-303 | a kick is that walk for at most 4096 tags |
| `Swizzle.BlockOrder` | source/hw/gs_mem.c:68-73 | the block table gives the 32 cells of a page 32 different numbers |
| `Swizzle.BlockOnto` | source/hw/gs_mem.c:68-73 | and every number below 32 belongs to a cell |
| `Swizzle.BlockBits` | source/hw/gs_mem.c:68-73 | the block number interleaves the bits of column and row |
| `Swizzle.BlockSteps` | source/hw/gs_mem.c:75-104 | inside a block the pixel to the right is the next word and the pixel below is eight words on |
| `Swizzle.PageSteps` | source/hw/gs_mem.c:75-104 | a page to the right is the next page and a page below a row of pages on |
| `Swizzle.CornerOffset` | source/hw/gs_mem.c:75-104 | the first page of a buffer holds its blocks in that order |
| `Swizzle.OffsetInjective` | source/hw/gs_mem.c:75-104 | a pixel of a buffer can be read back off its offset |
| `Swizzle.OffsetOnto` | source/hw/gs_mem.c:75-104 | every word from the base on belongs to a pixel of the buffer |
| `Swizzle.PageExact` | source/hw/gs_mem.c:75-104 | each 64x32 page is exactly its own 8192 bytes |
| `Swizzle.Aligned` | source/hw/gs_mem.c:75-104 | every address is a multiple of four |
| `Swizzle.SameAddressIff` | source/hw/gs_mem.c:75-104 | two pixels, of any width and place, have the same address exactly if their offsets are congruent modulo 2^30 words |
| `Swizzle.AliasFreeIff` | source/hw/gs_mem.c:75-104 | a buffer of n rows of pages has a word of its own for every pixel exactly if n times its pages to a row is at most 0x80000 |
| `Swizzle.PassesInsideIff` | source/hw/gs_mem.c:106-120 | the 32-bit range test lets only words in memory through, exactly unless the address is 0xFFFFFFFC |
| `Swizzle.LastWordReached` | source/hw/gs_mem.c:75-120 | a pixel whose address is 0xFFFFFFFC, which passes the test and is not in memory |
| `Swizzle.LastRead` | source/hw/gs_mem.c:106-120 | after any writes through a buffer of any size, a pixel in memory reads as last written to a congruent pixel, or as before |
| `Swizzle.MemoryIsMap` | source/hw/gs_mem.c:106-120 | after any writes to a buffer that fits, each pixel reads as last written and the others as before |
| `Swizzle.GsMemory.SwizzleAddress` | source/hw/gs_mem.c:75-104 | the step-by-step 32-bit arithmetic gives that address |
| `Swizzle.GsMemory.Read` | source/hw/gs_mem.c:106-113 | the word at the address, zero out of range, and a read outside memory exactly at 0xFFFFFFFC |
| `Swizzle.GsMemory.Write` | source/hw/gs_mem.c:115-120 | that word changes and no other, nothing out of range, and a write outside memory exactly at 0xFFFFFFFC |
| `Relocation.Relocated` | source/hw/iop_elf.c:135-192 | after the loop every word, jump and HI16/LO16 pair that shares no byte with another entry denotes its old value plus the load address, and no other field of its instructions has changed |
| `Relocation.EntryMoved` | source/hw/iop_elf.c:135-192 | entry by entry: the word, jump target or pair at load address plus offset, by type, has moved by the load address |
| `Relocation.ListedTwiceIff` | source/hw/iop_elf.c:135-192 | a word, jump or pair listed twice ends up there exactly if the load address does not move it |
| `Relocation.Untouched` | source/hw/iop_elf.c:135-192 | words that no entry touches keep their value |
| `Relocation.PairRebuilt` | source/hw/iop_elf.c:168-179 | the high half makes good the carry of the sign-extended low half |
| `Relocation.JumpMoved` | source/hw/iop_elf.c:149-154 | a jump target moves by the word-aligned load address modulo 2^28, and the opcode stays |
| `Relocation.Loader.PatchPair` | source/hw/iop_elf.c:168-180 | the patched pair denotes its old value plus the load address, if its two words are in RAM and apart |
| `Relocation.Loader.Relocate` | source/hw/iop_elf.c:135-192 | every entry before the first wrong one is patched as its type demands, and what is wrong with that one is reported |
| `AsyncQueue.FirstInFirstOut` | source/hw/iop_asyncio.c:33-73 | what was accepted is what was served, in order, followed by what is pending, never more than 128 |
| `AsyncQueue.ServedInTime` | source/hw/iop_asyncio.c:52-73 | 128 service calls serve everything that was pending, in order |
| `AsyncQueue.Table.constructor` | source/hw/iop_asyncio.c:28-31 | an empty table |
| `AsyncQueue.Table.Scan` | source/hw/iop_asyncio.c:36-49 | the scan finds the first channel of the wanted kind in cyclic order from the cursor on, or that there is none |
| `AsyncQueue.Table.Enqueue` | source/hw/iop_asyncio.c:33-50 | the request goes to the end of the queue, and is refused exactly when 128 are pending |
| `AsyncQueue.Table.Service` | source/hw/iop_asyncio.c:52-73 | the oldest request is taken, exactly one per call |
| `AsyncQueue.Table.Perform` | source/hw/iop_asyncio.c:33-73 | any sequence of calls is the same sequence on a bounded queue |
| `InterruptControl.EnableEnables` | source/hw/iop_hle_intr.c:280-305 | enabling turns the line on with its mode flags |
| `InterruptControl.DisableDisables` | source/hw/iop_hle_intr.c:318-352 | disabling turns it off and keeps its modes |
| `InterruptControl.EnableSpares` | source/hw/iop_hle_intr.c:280-305 | enabling changes no other line, but for the shared DMA line, which any DMA channel turns on |
| `InterruptControl.DisableSpares` | source/hw/iop_hle_intr.c:318-352 | disabling changes no other line |
| `InterruptControl.LastCallDecides` | source/hw/iop_hle_intr.c:256-360 | after any calls from any registers a line is on exactly if the last call for it says so, and has the modes of the last call that enabled it |
| `InterruptControl.DisableThenEnableIff` | source/hw/iop_hle_intr.c:256-360 | enabling with the number that disabling reports restores every register exactly for a plain line or registers as enabling leaves them |
| `InterruptControl.RestoredIff` | source/hw/iop_hle_intr.c:256-360 | so from reset on it does exactly for a plain line or while the shared DMA line is on |
| `InterruptControl.MirrorShows` | source/hw/iop_hle_intr.c:256-360 | after any calls from reset the mirror of the mask shows exactly the DMA channels that are on, and with any of them the master bit is on |
| `InterruptControl.DrivenBit` | source/hw/iop_hle_intr.c:288-299 | `r & ~(1 << k) & 0xFFFFFF` or-ed with `on ? 1 << k : 0` drives bit k and clears the bits above 23 |
| `InterruptControl.UpperIs` | source/hw/iop_hle_intr.c:280-298 | the mode tests read bits 8 and 9 of the interrupt number |
| `InterruptControl.FlaggedIs` | source/hw/iop_hle_intr.c:331-346 | the ORs of 0x100 and 0x200 report the line with its modes |
| `InterruptControl.Controller.EnableFirst` | source/hw/iop_hle_intr.c:286-294 | the packed arithmetic on four registers for channels 0x20 to 0x26 is the specified step |
| `InterruptControl.Controller.EnableSecond` | source/hw/iop_hle_intr.c:295-302 | and for channels 0x28 to 0x2D |
| `InterruptControl.Controller.DisableFirst` | source/hw/iop_hle_intr.c:329-340 | the masked tests, the report and the cleared bits for channels 0x20 to 0x26 |
| `InterruptControl.Controller.DisableSecond` | source/hw/iop_hle_intr.c:341-351 | and for channels 0x28 to 0x2D |
| `InterruptControl.Controller.EnableIntr` | source/hw/iop_hle_intr.c:256-309 | the three ranges of interrupt numbers, and the error for any other |
| `InterruptControl.Controller.DisableIntr` | source/hw/iop_hle_intr.c:310-360 | the three ranges, the reported number, and the errors |
| `InterruptControl.Controller.Perform` | source/hw/iop_hle_intr.c:256-360 | any sequence of calls on the registers is the same sequence of steps |
| `InterruptDelivery.Transparent` | source/hw/iop_hle_intr.c:361-466 | whatever a handler does short of letting another interrupt in, the interrupted program resumes at its place with every register as it was, and with the status stack moved down, to where it was if the handler left it alone |
| `InterruptDelivery.LastRegisteredRuns` | source/hw/iop_hle_intr.c:169-466 | after any registrations an interrupt enters the handler last registered for its line, with its argument and the return gate, and touches no other register |
| `InterruptDelivery.NestedReturnIdle` | source/hw/iop_hle_intr.c:361-466 | after an interrupt delivered inside the handler the outer return does nothing |
| `InterruptDelivery.ResumedIff` | source/hw/iop_hle_intr.c:361-466 | over any steps inside a handler, interrupts nested to any depth among them, its return resumes the program exactly if no interrupt arrived with a handler registered for it |
| `InterruptDelivery.Dispatcher.CopyRegisters` | source/hw/iop_hle_intr.c:454-455 | registers 1 to 31 are copied and register 0 is not |
| `InterruptDelivery.Dispatcher.DispatchInterrupt` | source/hw/iop_hle_intr.c:442-466 | looks the handler up, saves the registers and enters it with its argument, or changes nothing |
| `InterruptDelivery.Dispatcher.ReturnFromHandler` | source/hw/iop_hle_intr.c:361-437 | restores them, acknowledges the interrupt and pops the status, if a dispatch is under way |

## Left out

- Thread alarms and their dispatch, the Refer and query gates, GetThreadId, and calls made from interrupt context beyond iSignalSema and iSetEventFlag are not modelled.
- Parameter blocks that gates read from guest memory are arguments of the calls, and the bits an event-flag wait stores to guest memory are a log of (address, bits).
- Delay deadlines and semaphore and waiter counts are unbounded numbers; the code keeps 64-bit and signed 32-bit ones.
- Failure of the host allocator in the heap's tables is not modelled, and snapshots are words rather than bytes.
- Register effects of the GIF parser other than the transfer registers are a log of the writes; the vertex queue is modelled on its own, fed with kicks.
- GIF statistics, the PATH3 shadow registers and the MMIO block are not modelled, and neither is a buffer of 2^28 quadwords or more, whose byte length would wrap.
- IMAGE pixels are a log of (base, width, x, y, value); the block-addressed writer behind it is not part of this model.
- Colour, Z, texture and fog interpolation, line stepping and sprite filling are not modelled.
- XYOFFSET per drawing context is not modelled.
- The vertex counters are unbounded; the code uses a signed 32-bit counter.
- Guest handlers of the exception chains may change the processor in any way but leave the chains alone; the boot ROM and memory-mapped registers are not part of IOP memory here.
- NORMAL and interleave DMA, an unbound EE RAM, a missing sink, and inbound transfers.
- GsMemory.Read: what a read outside memory at address 0xFFFFFFFC returns is not modelled, only that it happens exactly there.
- GsMemory.Write: the same for what a write there overwrites.
- MemoryIsMap: asks that the buffer's pages fit the 32-bit address space, which `AliasFreeIff` shows to be exact; `LastRead` covers the others.
- SplitImage: asks that the first piece that brings anything leaves at most 4096 quadwords missing and that the rectangle is not full before the last quadword; `DataOrTag` shows both to be needed.
- Relocated: asks that no other entry touches a byte of the one it is about, which `ListedTwiceIff` shows to be needed, and that its words lie in RAM.
- EnqueueConsIff: asks that nodes, head slots and the table pointer do not partly overlap; the node may be in a chain already.
- EffectOrdered: asks that the gate does not make the ready counter go back; `EffectInOrderIff` has the exact condition.
- RunOrdered: asks that the ready counter never goes back; `RunInOrderIff` has the exact condition and `OrderLost` is a run that breaks it.
- ResumedIff: a handler is at the trampoline when it returns, and the interrupted program was not.
- ReturnHandledIff: asks that an interrupt that arrives inside a handler function is over before that function goes on.
- ResolveBytes: is about blocks of at least one byte, and RAM of at most 2^31 bytes.
- KickListed: asks for RAM of at most 2^31 bytes, as do the other laws of `DmaTags`.
- UploadDrawn: is about pixel data of less than 2^15 quadwords, which is what one IMAGE tag can announce, with nothing owed from an earlier call.
- EntryMoved: asks, like `Relocated`, that no other entry touches the words in question.
- PopUndoesPush: asks that the handler leaves bits 0 to 5 of the status as the exception entry made them.
- ELF headers, PT_LOAD segments, module names and the import and export tables of a module.
- Exception handlers registered with excepman, and the write of DisableIntr's report to guest memory, which is returned instead.
- The EE and IOP processors, CDVD, SIO2, timers, video output, menus and file handling.
