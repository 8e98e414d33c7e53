# Verified models of the core algorithms

This project models the pointer- and state-heavy cores of the repository in Dafny
and proves what their callers rely on, over all inputs and all runs. Code that
updates objects, lists and buffers step by step is a class or a method over arrays
and maps, proved against a specification function; what the code promises is then
proved of that function. Where a promise is false of the code, a lemma gives an
input and another one the exact condition under which the code does keep it.

`dafny verify dfyconfig.toml` checks the whole project.

## What is modelled

**The CoreMark list benchmark** (`MergeSortSpec`, `BenchSpec`, `BenchTold`, `CoreList`, `ListInit`).
Cells and items are addresses into the maps `next`, `info` and `data` of the class
`ListMemory`; the comparators overwrite `data16` and the record behind `res`, as in
the source, so a comparator is a function on values that returns the new items and
the new record. The benchmark routines behind `calc_func`, and the checksum, are
arbitrary functions. The merge sort is proved for any comparator to permute, and for
any comparator that caches on first touch and answers by a total preorder to sort
stably. One benchmark iteration on an index-ordered list restores every link, item
pointer and data word; what it returns and leaves in the record is told round by round and
item by item, without the functions that the code is proved against. Lists built by `core_list_init` are restored by every run if
and only if the indexes given out differ; seed 7 with 31 items gives a tie.

**The heap** (`HeapSpec`, `HeapAlloc`, `HeapFree`, `HeapBreak`, `HeapData`, `HeapRuns`, `XosHeap`).
The four words of a block header are maps from addresses; two of them lie in the
payload while the block is in use, and clients write there. `xos_malloc` serves from
the first of the smallest blocks that are strictly larger than the rounded request,
and leaves a heap exactly if that block is not split for a request of no bytes.
`xos_free` leaves a heap exactly in the safe cases (`FreeSafe`): if the next block is
free, the freed one is not the first of the heap; if both neighbours are free, they
are adjacent on the free list; if neither is and the freed block is not the first,
the free list is not empty. In the first two of the other cases blocks or free list
are broken: on a fresh heap, one allocation that splits the block and its free already
put a block on the free list twice. In the third one blocks and free list are as they
should be, and all that is wrong is a word written through null.

**The scheduler** (`SchedSpec`, `SchedRuns`, `SchedSafety`, `SchedWaits`, `SchedEffects`,
`SchedFindings`, `XosCore`).
Each kernel call, with the switch it may end in, is one step. The class `Scheduler`
keeps the ready, sleep and dead lists as linked nodes and is proved to make exactly
the step of the kernel specification. Findings: a yield breaks the order of priorities
exactly when it goes to a less urgent task; a semaphore records one waiter only, so a
second waiter makes the first one lost for good; a timed wait that runs out leaves its
task recorded, and the token of the next give is lost, or cuts short a sleep of that
task outside of any take of this semaphore. Each of these happens in a run from the
boot. A given token arrives exactly if no waiter is recorded or the recorded one is in
a take of that semaphore, and in every run all tokens are accounted for, the lost ones
included. A sleep is to end at a signed 32-bit tick, but is compared with unsigned ticks:
one that ends before the boot, or at 2^31 or later, as with a large enough time limit,
stands before all other sleepers and keeps every tick from waking any of them.

**The EHCI host controller driver** (`EhciPools`, `EhciTransfers`, `EhciFrames`, `EhciSpec`,
`EhciSafety`, `EhciRuns`, `EhciNotes`, `EhciMachine`, `EhciOutcomes`, `EhciFindings`, `EhciHcd`,
`EhciPeriodic`, `EhciDriver`).
`EhciMachine` is the driver together with the controller: submits, kills, the
controller writing descriptors and status words, its answer to the doorbell, and
interrupts. The class `Driver` holds queue heads, descriptors and links as they are in
memory; each of its calls is proved to make a step of that machine. Findings:

- a queue head of the asynchronous schedule returns to the pool without an answer that
  covers its unlinking (section 4.8.2 of the EHCI 1.0 specification) exactly in these
  events: a kill of such a request, and an interrupt that reads an answer and either
  unlinks a queue head in the same go or finds one unlinked while the bell was pending,
  as in a run from the start;
- a submit that fails, or a kill without a time limit, leaves the request marked busy,
  and it is refused ever after;
- a request that waits for the doorbell is accepted again, which breaks the books, in a
  run from the start;
- a control transfer with a buffer but no announced data loses a descriptor, and one
  that announces data without a buffer is accepted and then filled in through null;
- so is an empty bulk or interrupt transfer when no descriptor is free, as in a run from
  the start, and one of more than 0xffffc000 bytes: the check before misses exactly these;
- a control transfer of 0x8000 bytes of data or more reports bytes that were not moved,
  as its count of bytes holds 15 bits, and its data beyond five pages cannot be reached.

**NTFS runlists** (`Runlist`, `LittleEndian`), **FAT chains** (`Fat`), **printing and parsing
of numbers** (`Numerals`). Findings for runlists: the distance of a run is read through
plain `char` (tntfs/fs_ntfs.c:224), which is unsigned for the compiler that the Makefile names
(`riscv64-unknown-elf-gcc`), so a negative distance in one to three bytes is misread, and
runs come back as they were stored exactly if there is none; a lookup adds up the lengths
of runs in 32 bits, and ends at the place it was asked for exactly if the run there ends
below 2^32, as it does in every file without cluster 0 that holds no cluster twice.
Findings for FAT: the code keeps to the 28-bit values of FAT32
exactly while the reserved bits do no harm, and links past the end of a chain stay at 0
exactly if entry 0 counts as an end or is 0, which it is not on a medium with descriptor
0xf0; a failed read leaves the mark of the sector that was in the buffer, and the next
lookup in that sector is answered from whatever bytes are there.

**The PSRAM controller and its AHB side** (`PsramPair`, `Psram`). Two clocked machines as
classes, one cycle of both proved to be the step of the pair. Finding: reset leaves
the data-valid flag alone; with the flag high the first read is answered while its
address is still on its way, and reset is in order exactly if the flag is low.

Pointers are addresses, 0 is null, and memory that was never written reads as 0.

## Model

| member | source | states |
|---|---|---|
| MergeSortSpec.SortPermutesItems | coremark/core_list_join.c:426-496 | For any comparator and any record state, the sorted list holds exactly the items of the input. |
| MergeSortSpec.SortSettles | coremark/core_list_join.c:426-496 | For a comparator that caches on first touch and answers by a total preorder, the sorted list is sorted and stable, and every item of a list of two or more has been touched. |
| MergeSortSpec.PassDoublesRuns | coremark/core_list_join.c:434-494 | A pass over settled runs of length k leaves settled runs of length 2k of the same cells. |
| MergeSortSpec.SortConserves | coremark/core_list_join.c:426-496 | Whatever every comparison keeps balanced between the record and what is due of the items, the sort keeps balanced: it passes the record through all comparisons, and compares items as the comparisons before left them. |
| MergeSortSpec.TwoAreComparedOnce | coremark/core_list_join.c:451-477 | Two items are compared once, in their order, and swapped if the answer is positive. |
| CoreList.ListMemory.Mergesort | coremark/core_list_join.c:426-496 | The loops over `next` leave a null-terminated list of the input's cells in the order, with the contents and the record that the specified sort gives; other cells and items are untouched. |
| CoreList.ListMemory.Reverse | coremark/core_list_join.c:395-404 | The list is turned over in place, other cells untouched. |
| CoreList.ListMemory.RemoveAndUndo | coremark/core_list_join.c:180-189 | Removing the second item and putting it back leaves every link and item pointer as it was, and the checksum is the one over the shortened list. |
| CoreList.ListMemory.CoreBenchList | coremark/core_list_join.c:132-199 | One iteration leaves the list, the record and the checksum that the specified benchmark gives, and touches nothing else. |
| BenchTold.BenchTold | coremark/core_list_join.c:132-199 | The rounds of the search, told by which item is the first with the sought index or low byte, by where each cell goes and by which bit is counted; the returned value is the checksum routine applied once for each cell from the sought one on while the second is removed, and once for each but the first after the sort by index, to the bits counted plus 4 for each round in which some item is the sought one less 1 for each other. |
| BenchTold.ReturnsTheTotal | coremark/core_list_join.c:143-170 | With a checksum routine that returns what it is given, that sum is returned. |
| BenchTold.UncachedAnswers | coremark/core_list_join.c:63-95 | An item that is not cached is answered by the state routine if its low bits are 0, by the matrix routine if they are 1, and by itself else; the checksum takes the whole answer in, the first nonzero answer of each routine is recorded, and the low seven bits are cached. |
| BenchTold.CachedAnswers | coremark/core_list_join.c:63-69 | A cached item answers with its low seven bits and changes nothing. |
| BenchTold.FirstBeforeSecond | coremark/core_list_join.c:101-105 | A comparison by data calculates its first item before its second. |
| BenchTold.LowByteComesBack | coremark/core_list_join.c:112-118 | A comparison by index without a record leaves in the low byte what the high byte holds. |
| BenchTold.SortCalculatesOnce | coremark/core_list_join.c:63-105 | The sort by data calculates every item of a list of two or more that is not cached, each once, one after the other, and nothing else; the record is what this makes of it. |
| BenchTold.RecordTold | coremark/core_list_join.c:171-188 | So does the whole benchmark for a positive finder index; for another it leaves the record as it was. |
| BenchSpec.IdxSortRestores | coremark/core_list_join.c:112-118 | Whatever its order and cached bytes, the sort by index brings a list with distinct indexes back to its original order and data. |
| BenchSpec.BenchListRestores | coremark/core_list_join.c:126-199 | For every seed, finder index, record and benchmark routine, an original list ends as it began. |
| CoreList.ListMemory.CoreBenchListRestores | coremark/core_list_join.c:126-199 | The same in memory: every link, item pointer and data item is as before. |
| BenchSpec.RestoredExactlyWhenIndexesDiffer | coremark/core_list_join.c:126-199 | A list in index order, headed by index 0, survives every run if and only if no two items share an index. |
| ListInit.CoreListInit | coremark/core_list_join.c:213-266 | What the initialisation builds is such a list, it holds the items made from size and seed between a head of 0x8080 and a tail of 0xffff, each with its index, and it survives every run if and only if no two of the indexes given out are equal. |
| ListInit.PatternInBothBytes | coremark/core_list_join.c:236-242 | The word of an item holds a pattern of seven bits in both bytes: the low three bits of the counter, and its low four mixed with those of the seed. |
| ListInit.IndexGiven | coremark/core_list_join.c:243-254 | The first fifth of the list is numbered in order, and every other place gets a mixed index. |
| ListInit.MixedIndex | coremark/core_list_join.c:249-252 | A mixed index has fourteen bits: the counter mixed with the seed, and three bits of the next counter in bits 8 to 10. |
| ListInit.SeedSevenTies | coremark/core_list_join.c:245-258 | Seed 7 and 31 items: two of the indexes given out are equal. |
| ListInit.SeedSevenFails | coremark/core_list_join.c:213-266 | The list that the initialisation makes from seed 7 and 31 items is not restored by some run. |
| HeapRuns.RunKeeps | main/heap.c:81-221 | In every run of allocations, safe frees and clients' writes into their payloads, each state is a heap: blocks tile it, neighbours are linked both ways, the free list is exactly the free blocks, no two free blocks touch, and no byte is lost. |
| HeapRuns.AllocationServes | main/heap.c:81-149 | An allocation hands out an aligned payload of at least the requested size that was free; every used block stays and nothing else becomes used. |
| HeapRuns.AllocationTakes | main/heap.c:81-149 | What serves a request is a free block of least size among those with 16 bytes more than requested; what it has beyond the rounded request and its header stays a free block behind it if this is 16 bytes or more, and else is handed out too. |
| HeapRuns.NoneFitsExactly | main/heap.c:89-112 | A request is answered with null exactly if no free block has 16 bytes more than requested, so one whose payload would just hold it is passed over. |
| HeapRuns.ClientBytes | main/heap.c:81-149 | The bytes of a payload lie in the heap and in no other block, header or sentinel. |
| HeapRuns.PayloadStays | main/heap.c:81-221 | A payload stays its client's through any run that does not free it. |
| HeapData.WriteKeeps | main/heap.c:6-11 | Whatever a client writes into its payload, over the words of the free list that lie there, memory holds the same heap. |
| HeapRuns.ContentsStay | main/heap.c:81-221 | What a client wrote into its payload stays there through every run in which it neither writes there nor frees the block, whatever is allocated, freed and merged beside it. |
| HeapRuns.AllFreedIsFresh | main/heap.c:23-49 | When everything is given back, memory reads as after the initialisation. |
| HeapFree.FreeKeeps | main/heap.c:159-221 | In the safe cases a free makes the block one with its free neighbours and keeps the chain of blocks and the free list. |
| HeapBreak.FreeExactly | main/heap.c:159-221 | The memory after a free holds some heap if and only if the case is safe. |
| HeapBreak.OnlyNullIsWritten | main/heap.c:211-217 | A free between used blocks with an empty free list, not of the first block: blocks and free list are those of a heap, and only a word at null was written beside them. |
| HeapRuns.FreshFreeBreaks | main/heap.c:166-193 | On a fresh heap, an allocation that splits the block and its free leave a memory that holds no heap, for every request that splits it. |
| HeapBreak.TakeExactly | main/heap.c:81-149 | The memory after a free block was taken for a request of no fewer than 0 bytes holds some heap if and only if the request is not empty or the block is not split. |
| XosHeap.Heap.Malloc | main/heap.c:81-149 | Null exactly if no free block is strictly larger than the rounded request; else the payload of the first of the smallest such blocks, and memory holds the heap with that block split or taken, except exactly if it was split for a request of no bytes. |
| XosHeap.Heap.Free | main/heap.c:159-221 | After a free the memory holds a heap exactly in the safe cases, and then the merged one. |
| SchedSafety.EachInOnePlace | main/xos_core.c:192-484 | In every run from the boot, each task is in exactly one of running, ready, sleeping, dead, blocked or absent, and its state says which. |
| SchedSafety.StepUrgent | main/xos_core.c:250-280 | If no ready task is more urgent than the running one, none is after any call but a yield. |
| SchedSafety.YieldUrgent | main/xos_core.c:401-409 | A yield keeps that exactly if it goes to a task of the same priority. |
| SchedSafety.FirstReadyFirstRun | main/xos_core.c:141-160 | In every run, a ready task is dispatched before every task behind it on the ready list. |
| SchedSafety.EqualsRunInOrder | main/xos_core.c:141-198 | In every run, two tasks of the same priority run in the order in which they became ready. |
| SchedSafety.PreemptedRunsBehind | main/xos_core.c:250-280 | In every run, a task that is preempted or yields runs again only after every task of its priority that is ready then, also one made ready by the same call. |
| SchedSafety.WokenRunInOrder | main/xos_core.c:295-325 | Two sleepers of the same priority that one tick wakes run in the order of the sleep list, in every run. |
| SchedWaits.TickWakesExactly | main/xos_core.c:295-325 | A tick wakes exactly the sleepers whose time has come. |
| SchedWaits.DelayIsExact | main/xos_core.c:388-398 | A task that delays itself for n ticks sleeps until the n-th later tick and is ready or running after it, in every run in which no give reaches it. |
| SchedWaits.GiveArrivesExactly | main/xos_core.c:423-445 | In every run, a given token arrives (the value grows or a take of this semaphore succeeds) if and only if no waiter is recorded or the recorded task is in a take of this semaphore. |
| SchedWaits.TokensAreKept | main/xos_core.c:414-484 | In every run without a second waiter and without an expired recorded wait, initial value plus gives is value plus successful takes, and a waiter is recorded exactly while it waits. |
| SchedWaits.TokensAccounted | main/xos_core.c:414-484 | In every run whatever, initial value plus gives is value plus successful takes plus the tokens that did not arrive, less those of other semaphores that ended takes of this one. |
| SchedWaits.SecondWaiterLosesFirst | main/xos_core.c:449-484 | A second waiter replaces the first, which, if it waits without limit, is recorded nowhere any more. |
| SchedWaits.LostStep | main/xos_core.c:423-445 | Such a task stays blocked through every call. |
| SchedWaits.ExpiryLeavesStaleWaiter | main/xos_core.c:295-325 | A timed wait that runs out leaves its task recorded by the semaphore. |
| SchedWaits.StaleWaiterTakesToken | main/xos_core.c:423-445 | A token given to a recorded task that no longer waits arrives nowhere: no value grows, no take ends, nobody is woken. |
| SchedWaits.StaleWaiterSleepsLess | main/xos_core.c:423-445 | A recorded task that sleeps, but not in a take of this semaphore, is woken before its time by the give, and the token arrives nowhere all the same. |
| SchedWaits.StaleTokenIsLost | main/xos_core.c:414-484 | In every run, a recorded task that is not in a take of the semaphore stays recorded until another task has to wait on it or it is given a token, and that token is lost. |
| SchedWaits.ExpiredWaitLosesToken | main/xos_core.c:295-484 | In every run after a recorded timed wait ran out, the next token that the semaphore is given is lost, unless a task had to wait on it in between. |
| SchedWaits.SleepKeepsExactly | main/xos_core.c:388-484 | A delay or a timed take, of whatever 32-bit time, keeps the kernel in order if and only if the sleep ends after tick 0 and below 2^31. |
| SchedWaits.SleepFreezes | main/xos_core.c:304-398 | A sleep that ends before the boot, or at 2^31 or later, becomes the first one, with a time below 0. |
| SchedWaits.NoneWakes | main/xos_core.c:295-325 | From then on no tick wakes any sleeper, in every run in which no give reaches the first one. |
| SchedWaits.NoneOverdue | main/xos_core.c:295-325 | After every call, no sleeper's time has passed, if no delay is negative. |
| SchedWaits.ExpiredTakeFails | main/xos_core.c:449-484 | A take with a time limit that no give reaches is answered with -1, in every run. |
| SchedWaits.GivenTakeSucceeds | main/xos_core.c:423-484 | A take that a give reaches while it waits is answered with 0, in every run in which no other give reaches its task before it runs. |
| SchedEffects.CreateTakesPriority | main/xos_core.c:332-364 | A new task has the priority it is created with and every other task its own; it runs at once if and only if it is at least as urgent as the running task and more urgent than every ready one, and is ready else. |
| SchedEffects.PriorityOfCreation | main/xos_core.c:332-364 | In every run, a task has the priority of its last creation. |
| SchedEffects.TickAlone | main/xos_core.c:295-325 | A tick that wakes nobody moves the clock and nothing else, also when a task of the same priority is ready. |
| SchedEffects.TickHandsOver | main/xos_core.c:295-325 | After a tick that wakes somebody, the running task is the same and more urgent than every ready one, or another that is at least as urgent as it and as every ready one. |
| SchedEffects.ExitBuriesCaller | main/xos_core.c:367-376 | A task that exits is first on the dead list, the first ready task runs, and nothing else changes. |
| SchedEffects.ReapReleases | main/xos_core.c:506-518 | Reaping empties the dead list, releases the control blocks on it, and changes nothing else. |
| SchedEffects.DelayPutsToSleep | main/xos_core.c:388-398 | A delayed task sleeps until its tick, the first ready task runs, and nothing else changes. |
| SchedEffects.YieldHandsOver | main/xos_core.c:401-409 | A yield puts the task among the ready ones and runs the one that was first there. |
| SchedEffects.GiveGrowsValue | main/xos_core.c:423-437 | A give without a recorded waiter makes the value one larger and changes nothing else. |
| SchedEffects.GiveReleasesWaiter | main/xos_core.c:423-445 | A give to a waiting waiter ends its wait with 0, takes it off the sleep list and no longer records it; it runs at once if and only if it is at least as urgent as the running task and more urgent than every ready one. |
| SchedEffects.TakeShrinksValue | main/xos_core.c:449-455 | A take that finds a token takes it and changes nothing else. |
| SchedEffects.TakeGivesUp | main/xos_core.c:456-458 | A take without a time to wait that finds none changes nothing. |
| SchedEffects.TakeWaits | main/xos_core.c:449-484 | A take that finds the value 0 and has a time limit other than 0 records its task as the waiter, which sleeps until its tick if the limit is positive and is on no list if it is negative. |
| SchedEffects.TakeIsExact | main/xos_core.c:449-484 | A take with a limit of n ticks that no give reaches sleeps until the n-th later tick and is ready or running after it, in every run. |
| SchedEffects.BootedIs | main/xos_core.c:536-550 | After initialisation the idle task runs, with priority 8, and there is no other. |
| SchedFindings.IdleRunsBeforeUrgent | main/xos_core.c:401-409 | A run from the boot in which the idle task runs while a more urgent one is ready. |
| SchedFindings.FirstTakerIsLost | main/xos_core.c:449-484 | A run from the boot in which two tasks take from one semaphore and the first is lost for good. |
| SchedFindings.TokenIsLost | main/xos_core.c:295-445 | A run from the boot in which a timed take runs out and the token given next does not arrive. |
| SchedFindings.DelayIsCut | main/xos_core.c:388-445 | A run from the boot in which a task that delays itself for ten ticks is woken at once by a give of a semaphore that it no longer takes from, whose token does not arrive. |
| SchedFindings.NobodyWakes | main/xos_core.c:295-398 | A run from the boot to a task that sleeps for ten ticks, and another one whose delay of -1 tick keeps every tick from waking it. |
| XosCore.Nodes.InsertOrder | main/xos_core.c:141-160 | The node is linked in before the first one with a larger key, so behind equal ones, and other nodes' links stay. |
| XosCore.Scheduler.TaskCreate | main/xos_core.c:332-364 | Lists and control blocks after the creation of a task are those of the kernel specification, the task has the given priority and every other its own, and the invariant holds. |
| XosCore.Scheduler.TaskExit | main/xos_core.c:367-376 | The same for a task that ends. |
| XosCore.Scheduler.TaskDelay | main/xos_core.c:388-398 | The same for a delay of whatever 32-bit number of ticks; the invariant holds if and only if it ends after tick 0 and below 2^31. |
| XosCore.Scheduler.TaskYield | main/xos_core.c:401-409 | The same for a yield. |
| XosCore.Scheduler.TickHandle | main/xos_core.c:295-325 | The linked lists and control blocks after a tick are those of the kernel specification, and the invariant holds. |
| XosCore.Scheduler.SemGive | main/xos_core.c:423-445 | The same for a give. |
| XosCore.Scheduler.SemTake | main/xos_core.c:449-484 | The same for a take with whatever 32-bit time limit, with its answer if it does not wait; the invariant holds unless the task waits and its time ends at 2^31 or later. |
| XosCore.Scheduler.ReapDead | main/xos_core.c:494-522 | The dead tasks' control blocks are released and may be used again. |
| EhciPools.TakenAre | cherryusb/usb_hc_ehci.c:27-104 | Allocations in a row take distinct free entries and mark exactly them. |
| EhciTransfers.BplFill | cherryusb/usb_hc_ehci.c:253-277 | The page pointers written are those of the buffer's pages, in 32-bit words. |
| EhciTransfers.AllBytesReachable | cherryusb/usb_hc_ehci.c:253-298 | The controller finds every byte of a buffer on the page that section 3.5.4 of the EHCI 1.0 specification selects if and only if the buffer ends within five pages. |
| EhciTransfers.ChunksCover | cherryusb/usb_hc_ehci.c:431-475 | A transfer of n > 0 bytes is cut into as few chunks of at most 0x4000 as possible, without gap or overlap, and only the last interrupts. |
| EhciTransfers.AskedIsEnough | cherryusb/usb_hc_ehci.c:424-434 | The check before the transfer asks for exactly the descriptors it takes, unless it is empty or so long that the sum wraps around. |
| EhciTransfers.ChunksCarry | cherryusb/usb_hc_ehci.c:253-298 | The filled descriptors cover the buffer, only the last interrupts, and the controller finds every byte of each. |
| EhciTransfers.ControlCarries | cherryusb/usb_hc_ehci.c:345-395 | The filled descriptors of a control transfer are active: 8 bytes at the setup packet, the buffer exactly if data are announced, and an empty one, which alone interrupts; every data byte is in the controller's reach if and only if the buffer ends within five pages. |
| EhciFrames.BuildSchedule | cherryusb/usb_hc_ehci.c:809-839 | The nested loops end, with each head linked to the next smaller one and each frame at the head of the longest period that serves it, for 256, 512 or 1024 frames. |
| EhciFrames.FrameReaches | cherryusb/usb_hc_ehci.c:809-839 | Frame j reaches exactly the heads i with 2^i dividing j + 1, in descending order. |
| EhciFrames.MetInEveryInterval | cherryusb/usb_hc_ehci.c:147-158 | For frame lists of 256, 512 or 1024 entries, the head chosen for bInterval * 8 is met in one of any max(1, bInterval) consecutive frames. |
| EhciPeriodic.HeadOftenEnough | cherryusb/usb_hc_ehci.c:147-158 | The head chosen for an endpoint is served at least as often as the endpoint is to be polled, at every speed. |
| EhciPeriodic.HeadIsLongest | cherryusb/usb_hc_ehci.c:147-158 | The next longer head would be too slow, at low and full speed for bInterval from 1 to 31, and at high speed for an eighth of the byte. |
| EhciPeriodic.PolledInEveryRun | cherryusb/usb_hc_ehci.c:611-618 | In every state of every run, the queue head of every interrupt request in flight is met in one of any max(1, bInterval) consecutive frames, also across the wrap of the frame list. |
| EhciDriver.Driver.Polled | cherryusb/usb_hc_ehci.c:147-158 | The same for the frame list and the links that the driver has in memory. |
| EhciSafety.SubmitKeepsExactly | cherryusb/usb_hc_ehci.c:408-624 | A submit keeps the books of queue heads, descriptors and requests if and only if no queue head carries the request. |
| EhciSafety.SubmitFails | cherryusb/usb_hc_ehci.c:408-434 | A submit without a queue head or enough descriptors leaves both pools and both lists as they were. |
| EhciSafety.ControlKeepsExactly | cherryusb/usb_hc_ehci.c:300-406 | A control submit ends with the books kept, and not in a write through null, if and only if no queue head carries the request and a served one has a buffer exactly when data are announced. |
| EhciSafety.OverlookedExactly | cherryusb/usb_hc_ehci.c:419-450 | The check before a bulk or interrupt transfer misses that there are too few descriptors if and only if the transfer is empty and none is free, or it is longer than 0xffffc000 bytes. |
| EhciSafety.BulkKeepsExactly | cherryusb/usb_hc_ehci.c:408-624 | A bulk or interrupt submit ends with the books kept, and not in a write through null, if and only if no queue head carries the request and the check misses nothing. |
| EhciRuns.ScanKeeps | cherryusb/usb_hc_ehci.c:1186-1214 | A scan unlinks exactly the finished queue heads, each visited once, and those of the ring wait for the doorbell. |
| EhciRuns.AdvanceKeeps | cherryusb/usb_hc_ehci.c:1263-1270 | The loop over the pool returns exactly the waiting queue heads. |
| EhciRuns.InitialSizes | cherryusb/inc/usb_ehci_priv.h:19-31 | At the start ten queue heads and thirty descriptors are free, and ten static heads are chained behind the eleventh. |
| EhciMachine.RunKeeps | cherryusb/usb_hc_ehci.c:1057-1274 | Every state of every run of driver and controller keeps the invariant: a queue head is taken exactly if on the ring, on the chain or waiting for the doorbell; a descriptor exactly if on one chain of one linked queue head; the heads in order; the notes of each request; the doorbell. |
| EhciMachine.CompletionIsHonest | cherryusb/usb_hc_ehci.c:651-720 | In every run, a completed request reports total minus left over its own descriptors, and no error only if none of them is active. |
| EhciOutcomes.InterruptEndsExactly | cherryusb/usb_hc_ehci.c:668-720 | An interrupt with a scan leaves a linked request linked if and only if its token shows no error and it or a descriptor is active, and its code at -16; else the code is -1 for babble or halted, -5 for one of the two other errors, and 0 exactly without any. |
| EhciOutcomes.OverIsFreed | cherryusb/usb_hc_ehci.c:626-737 | A request that is over is carried by nothing after that interrupt and its queue head is free, if it is of the periodic schedule or an answer to the doorbell is read; else its queue head waits and the bell is rung. |
| EhciOutcomes.DataIsChained | cherryusb/usb_hc_ehci.c:408-624 | A bulk or interrupt submit that is served chains active descriptors that cover the buffer, every byte in the controller's reach, only the last interrupting. |
| EhciOutcomes.ControlIsChained | cherryusb/usb_hc_ehci.c:300-406 | A control submit that is served chains the stages of the transfer, only the last, empty one interrupting. |
| EhciOutcomes.NewIsAtWork | cherryusb/usb_hc_ehci.c:27-50 | A submit that is served leaves a clear token and active descriptors, whatever its queue head was left with, so that no interrupt ends the request before the controller has worked on it. |
| EhciOutcomes.NewIsBehindItsHead | cherryusb/usb_hc_ehci.c:611-618 | Its queue head is put first on the ring, or right behind the static head of its period, and the others stay as they are. |
| EhciMachine.CompletionReports | cherryusb/usb_hc_ehci.c:651-720 | In every run from the start, these descriptors are those of the last submit of the request that was served, as far as the controller worked on them. |
| EhciMachine.CompletedOutcome | cherryusb/usb_hc_ehci.c:651-720 | In every run from the start, a completed request reports at most the bytes of that submit, and exactly the bytes that were moved if and only if it was not a control transfer of 0x8000 bytes of data or more. |
| EhciMachine.DataOutcome | cherryusb/usb_hc_ehci.c:651-666 | A completed bulk or interrupt request reports exactly the bytes that were moved, at most what it was submitted with. |
| EhciMachine.ControlOutcome | cherryusb/usb_hc_ehci.c:300-406 | A completed control request reports exactly the bytes that were moved if and only if it has no data or fewer than 0x8000 bytes of them. |
| EhciMachine.CompletesOncePerSubmit | cherryusb/usb_hc_ehci.c:626-720 | Between two completions of a request it was submitted again, in every run. |
| EhciMachine.CompletedIsFree | cherryusb/usb_hc_ehci.c:626-649 | A completed request was in flight and is carried by nothing afterwards. |
| EhciMachine.DoorbellExactly | cherryusb/usb_hc_ehci.c:714-737 | A queue head returns to the pool without an answer that covers its unlinking if and only if a request of the ring is killed, or an interrupt reads an answer and unlinks from the ring in the same go or finds a late one. |
| EhciMachine.LateIsFreedUncovered | cherryusb/usb_hc_ehci.c:714-718 | A queue head unlinked while a bell is pending is returned by the answer to that bell. |
| EhciFindings.FreedWithoutAnswer | cherryusb/usb_hc_ehci.c:714-737 | A run from the start, of two submits to the ring with the second while the bell is pending for the first, in which the answer to that bell returns the queue head of the second, which it does not cover. |
| EhciFindings.WaitingIsTakenAgain | cherryusb/usb_hc_ehci.c:1072-1105 | A run from the start to a state in order in which a request waits for the doorbell and is not marked busy, so that every submit of it breaks the books. |
| EhciFindings.EmptyPassesCheck | cherryusb/usb_hc_ehci.c:419-470 | A run from the start, of one transfer that takes all descriptors, to a state in order in which an empty transfer passes the check and is filled in through null. |
| EhciMachine.FailedIsRefused | cherryusb/usb_hc_ehci.c:1072-1105 | After a failed submit the request is carried by nothing and refused. |
| EhciMachine.KilledIsRefused | cherryusb/usb_hc_ehci.c:1130-1184 | After a kill the request is carried by nothing; its code is -108 if it had a time limit and -16 if it had none, and it is refused exactly in the second case. |
| EhciMachine.RefusedForGood | cherryusb/usb_hc_ehci.c:1072-1074 | A refused request that nothing carries is refused in every later state of every run. |
| EhciDriver.Driver.SubmitTransfer | cherryusb/usb_hc_ehci.c:408-624 | A bulk or interrupt submit in memory is a step of the machine: the descriptors chained at the new queue head hold the chunks, with address, page pointers and interrupt bit, and the answer says why it failed. |
| EhciDriver.Driver.SubmitSetup | cherryusb/usb_hc_ehci.c:300-406 | A control submit in memory is a step of the machine, and the answer says why it failed. |
| EhciDriver.Driver.HandleInterrupt | cherryusb/usb_hc_ehci.c:1216-1274 | The interrupt handler, unlinking while it follows the links, is a step of the machine. |
| EhciDriver.Driver.KillUrb | cherryusb/usb_hc_ehci.c:1130-1184 | A kill in memory is a step of the machine. |
| Runlist.StoreThenDecode | tntfs/fs_ntfs.c:195-232 | Decoding gives back the runs that were stored as signed differences, for every choice of sufficient sizes up to four bytes, if and only if plain char is signed or every negative difference takes all four bytes. |
| Runlist.UnsignedCharReads | tntfs/fs_ntfs.c:220-228 | Read through unsigned chars, up to four bytes are the signed number in 32 bits if and only if there are none, the top one is below 128, or there are four. |
| Runlist.NegativeDistanceMisread | tntfs/fs_ntfs.c:220-228 | With unsigned chars, a run 16 clusters before the last one, stored in one byte, is read as 240 clusters behind it. |
| Runlist.LengthThenStart | tntfs/fs_ntfs.c:210-232 | The low digit of a header counts the bytes of the length and the high one those of the distance, in this order, lowest byte first: 0x18 clusters from 0x5634 on. |
| Runlist.FlatOfOne | tntfs/fs_ntfs.c:235-266 | A run contributes as many clusters as it is long, one behind the other in 32 bits. |
| Runlist.RunList.SeekVcn | tntfs/fs_ntfs.c:248-266 | A lookup goes through the runs with the sum of their lengths in 32 bits, and gives cluster vcn of the flattened runs, or 0 past the end, if the run ends below 2^32. |
| Runlist.PlaceExactly | tntfs/fs_ntfs.c:248-266 | In every file, a lookup gives the cluster at some place of it, and that is the place asked for if and only if the run there ends below 2^32. |
| Runlist.SeekExactly | tntfs/fs_ntfs.c:248-266 | For a cluster that is not cluster 0 and does not come again further on, the lookup is right if and only if its run ends below 2^32. |
| Runlist.DifferentAreFound | tntfs/fs_ntfs.c:248-266 | In a file without cluster 0 and without a cluster twice, every lookup is right. |
| Runlist.SecondHalfNotFound | tntfs/fs_ntfs.c:248-266 | Of two runs of 2^31 clusters each, no cluster of the second is found, though each of them but cluster 0 does not come again further on. |
| Runlist.RunList.TakeLcns | tntfs/fs_ntfs.c:235-245 | Repeated calls give the flattened runs in order, and then 0. |
| Runlist.SignedLow | tntfs/fs_ntfs.c:216-228 | Filling up low bytes below a signed top byte gives the signed number of all of them. |
| Fat.RawIsEntry | tntfs/fs_fat.c:200-249 | What a lookup takes out of its buffer is the entry, a digit of the table read as one little-endian number, also where two entries share a byte or one lies across two sectors. |
| Fat.LinkOfBytes | tntfs/fs_fat.c:200-249 | On the bytes of the table: an entry of at least 0xff8, 0xfff8, or from 0x0ffffff8 to 0x7fffffff ends a chain, and every other leads to its own number. |
| Fat.FatFs.Lookups | tntfs/fs_fat.c:183-249 | Any lookups in any order with successful reads give the links of the table, whatever the buffer held. |
| Fat.FatFs.Locate | tntfs/fs_fat.c:443-465 | Following a chain from its first cluster gives the cluster at that position of the file. |
| Fat.FollowsFormat | tntfs/fs_fat.c:236-247 | The code's link is the 28-bit one of the format if and only if the reserved bits do no harm. |
| Fat.SoundExactly | tntfs/fs_fat.c:183-198 | A lookup leaves the buffer holding what it is marked with if and only if it does not fail, nothing was marked, or the failed read left the marked sectors there. |
| Fat.AfterFailure | tntfs/fs_fat.c:183-249 | After a failed read, the next lookup that the device serves is right if and only if it is not of the marked sector or the bytes left there give the same link. |
| Fat.ChainCutShort | tntfs/fs_fat.c:183-249 | If the failed read left zeros, every chain with a cluster in the marked sector seems to end there. |
| Fat.PastTheEnd | tntfs/fs_fat.c:200-249 | Further links past the end of a chain stay at 0 if and only if entry 0 is an end mark (at least 0xff8, 0xfff8, or from 0xffffff8 to 0x7fffffff) or 0. |
| Fat.FixedMedium | tntfs/fs_fat.c:200-249 | With the medium descriptor and ones in entry 0 that is so if and only if the descriptor is at least 0xf8 or, in FAT32, a reserved bit is set, and the top bit of a FAT32 entry is clear. |
| Fat.RemovableMedium | tntfs/fs_fat.c:200-249 | With the medium descriptor 0xf0 the link after the end is 0xff0 in FAT12. |
| Numerals.Itostr | main/printk.c:20-57 | The text is one of digits of the base without leading zero whose value is the number, its negative if a sign is shown in base 10, and the number plus 2^32 if it is negative else; letters are of the case asked for; it has at most 32 characters, and the rest of the buffer is kept. |
| Numerals.DigitsAre | main/printk.c:34-45 | The digits are 0 to 9 and the letters in order, in either case, both printed and parsed. |
| Numerals.NumeralOf | main/printk.c:20-57 | A numeral is a text of digits of the base without leading zero, and its digits add up to the number. |
| Numerals.FewDigits | main/printk.c:20-57 | A number below 2^n has at most n digits in any base. |
| Numerals.Strtoul | main/string.c:158-218 | Parsing gives the longest start of the text that is a number of the base, its value in 32 bits, why it ends there, and where. |
| Numerals.ParsedOnce | main/string.c:158-218 | That contract leaves one outcome only. |
| Numerals.PrintThenParse | main/string.c:158-218 | Whatever satisfies that contract on a printed number is the number, status 0 and the end of the text. |
| Numerals.ParseStops | main/string.c:158-218 | Parsing a printed number with more behind it gives the number and ends there, with status 3 at a separator and 4 at a character that is no digit of the base. |
| Numerals.PrefixedThenParse | main/string.c:158-218 | A hexadecimal number behind 0x and an octal one behind 0o are parsed as printed, whatever base is asked for. |
| PsramPair.RunKeeps | fpga/ulogic/tpsram.v:80-178 | In every run, each request is accepted once and answered once, in order, and the bus has carried exactly the frames of the accepted ones. |
| PsramPair.QuietAfterReset | fpga/ulogic/ulogic.v:288-334 | From reset on, whenever both machines are idle, nothing is owed and the bus has carried the requests' frames. |
| PsramPair.ResetOk | fpga/ulogic/ulogic.v:288-334 | Reset leaves the pair in order if and only if the data-valid flag is low. |
| PsramPair.EarlyFromReset | fpga/ulogic/tpsram.v:80-178 | From a reset with the flag high, a run in which the first read is answered while its address is on its way. |
| PsramPair.Answered | fpga/ulogic/ulogic.v:288-334 | Every request is answered after a number of cycles known in advance, at most 50, a read with nibbles of its own frame. |
| PsramPair.AnsweredIn | fpga/ulogic/ulogic.v:288-334 | A request that the idle controller finds waiting is answered 33 cycles later, or 2 if it is a write. |
| PsramPair.AnsweringNibbles | fpga/ulogic/tpsram.v:80-178 | A read is answered with the sixteenth to twenty-third nibble sampled since it was accepted, put on the lanes of its address. |
| PsramPair.FrameHead | fpga/ulogic/tpsram.v:80-178 | A frame begins with 0x02 for a write and 0xEB for a read and the six digits of the address, and a read has no more. |
| PsramPair.WriteFrame | fpga/ulogic/tpsram.v:80-178 | The frame of an aligned write is the command, the address and the addressed bytes in ascending order, 2, 4 or 8 nibbles of them. |
| PsramPair.ReadLanes | fpga/ulogic/ulogic.v:288-334 | A read answers on the lanes of its address with the bytes received first. |
| Psram.Board.Cycle | fpga/ulogic/ulogic.v:288-334 | One clock cycle of the two blocks, each seeing the other's registers before the edge, is the step of the pair. |

## Left out

- CoreMark: `ee_size_t` and `insize` are unbounded, which is exact for lists of fewer than 2^30 cells; the size given to the initialisation is 4 to 0xffff; the fields of the result record are one value threaded through the sort; timing and reporting are left out.
- CoreMark: the probe's `data16`, which the source leaves uninitialised when seed3 is not positive, is taken as 0; it reaches the checksum only.
- XosHeap.Heap.Malloc: requests round to 0 or more and are at most 0x7ffffff8, so that rounding does not wrap; a request of -8 or fewer bytes puts a header over the words of earlier blocks, which overlap in ways that the maps do not hold; locking is left out.
- Scheduler: the gaps between unlocking and switching (main/xos_core.c:374, 396 and 480) are left out, as each call is one step; stacks, the context switch and the timer interrupt are left out; ticks stay below 2^31; a give to a task whose sleep ends before the boot, which stays on the sleep list and becomes ready as well, is left out; the idle task never gives up the processor; the second check of a semaphore's value is merged with the first; a give through a stale record into released memory touches the words of that task's control block only.
- EHCI: driver calls are atomic, and the controller observes the doorbell after the interrupt handler has ended; completion callbacks that submit again inside a scan are left out; the two scans of an interrupt with both an end and an error flag are one; the search of a kill ends at the first match, which is the only one.
- EHCI: the endpoint characteristics, the direction of a descriptor, the data toggle, the clearing of `hlp` on allocation and register accesses are left out; a time limit is a flag of the kill; isochronous transfers are not compiled in; the wipe of the pools when a port disconnects (cherryusb/usb_hc_ehci.c:1247-1255) and a kill of a request that waits for the doorbell leave the invariant and are left out.
- EHCI: what becomes of memory after a write through null is left out; runs and the driver's submits are without the transfers that end in one (`Overlooked`, and announced data with an empty buffer).
- EHCI: which microframes of a frame a high-speed endpoint is polled in (cherryusb/usb_hc_ehci.c:125-145) is left out.
- Runlist.RunList.TakeLcns: numbers of up to four bytes, as the fields hold 32 bits; bit operations on disjoint bits are arithmetic; the second call on a runlist without runs is not specified, and neither is going on after a lookup, which does not set the current cluster.
- Fat.FatFs.NextCluster: the arithmetic of sector addresses of the partition is left out, a positive answer of the device counts as success, and the place of a 12-bit entry is that of the 32-bit product.
- Directory entries, file data, `parse_ftime`, and the copy loops of `fat_read` and `ntfs_read` are left out.
- Psram.Board.Cycle: the crossing from the AHB clock is taken as one `ahb_ack` pulse for each transfer, and analogue timing is left out.
- Format strings of `vsnprintk`, the shell, Tcl, the PLL, UART, GPIO and USB class drivers are left out.
