# Hojicha, verified

Dafny models of the parts of the Hojicha kernel and C library that carry global invariants, with
proofs of what those parts are for. Nothing here is executed.

| component | files |
|---|---|
| `hmalloc`, the boundary-tag heap, and `realloc` | HeapMemory, HeapList, Hmalloc, HeapTheorems, Realloc |
| `vmm`, four-level page tables behind scratch windows | Pte, PageTables, Vmm, VmmCopy, VmmFree |
| `vma`, the sorted list of memory areas | Vma |
| scheduler, wait queues, semaphores, sleep, fork, exit, waitpid, terminator | ProcQueue, Sched, SchedInv, SchedSteps, SchedLife, SchedReap, SchedSem, SchedRun, SchedEffects, SchedRecord, SchedFair, SchedTheorems, SchedWait, SchedHistory, Kernel, KernelRun |
| VFS path walk, `getcwd` and `chdir` | Vfs, VfsCwd, VfsChdir, VfsPaths |
| initrd directory entries and hard links | Initrd, InitrdRun, InitrdNames |
| bitmap and slab allocator | Bitmap, Slab |
| the Brainfuck interpreter `hbfi` | Hbfi, HbfiPrograms |
| sequences of addresses | Seqs |

Conventions. Addresses are integers and 0 is the null pointer. Memory that a component links together
(headers, list nodes, process records, inodes) is a map keyed by address held in a field of a class;
releasing an object removes its key, so a use after release does not verify. Where the source updates
structures in place the model is a class whose methods follow the source statement by statement, each
proved against a function on sequences, and the theorems are about those functions. Code the model
cannot see is a parameter: the page source of the heap, the supply of physical frames, the result of
each allocation, timestamps and timer intervals, and the operations of a filesystem, which may be any
functions at all.

How the pieces fit:

- **Heap.** `HeapMemory.Laid` says that headers and footers in memory are those of a list of blocks that
  tile the heap and that the free list threads the listed ones. Every heap operation is proved to keep
  it. `Hmalloc.Served` says which block an allocation gets and when new pages are asked for, and
  `HeapTheorems` turns both into the client's view, for every sequence of calls.
- **Page tables.** `PageTables.Rep` relates tables in physical memory to a flat map from pages to entries,
  and `Translate` is what the processor does with the same memory. Tables are reached only through
  windows (`Vmm.Machine.win`) that are remapped during the walk, as in the source.
- **Scheduler.** `ProcQueue` proves the intrusive queues, all on one `next` field, against sequences.
  `Sched` is the step machine on those sequences, `Kernel` the same steps on the real queues, and the
  `Sched*` files prove the invariant and fairness of the step machine. `SchedEffects` says of every step,
  without the nested sections, who runs after it, which queues change and how; `SchedRecord` and
  `SchedHistory` follow a process through runs. A step is one outermost
  `sched_postpone` .. `sched_resume` section. `waitpid` is two steps, with the switch between them.
  Assumed, as the source needs it: a process terminated by another is not blocked, nobody terminates
  the terminator task and it never sleeps, and a semaphore is unlocked by a holder (`SchedRun.Enabled`).
- **Path walk.** `Vfs.Resolve` is the fold over path components; `Vfs.Vnodes.WalkPath` is the cursor loop
  with its recursion through symbolic links. Any operations and any reference counts are allowed; what a
  walk frees had neither a link nor a reference before it (`Vfs.Vnodes.FreedOnly`). `VfsPaths` says what
  the text of a path means: relative paths, "." and "..", mount points and symbolic links.

Where a property does not hold of the code:

- The slab allocator adds its 24-byte header to the size without a wrap-around test.
  `Slab.ClassHolds` proves that the object returned has room for the request if and only if that sum
  does not wrap, and `Slab.WrappedRequest` exhibits the largest size, served with eight bytes.
- Terminating a blocked process does not take it out of its wait queue. `SchedTheorems.ExitExact` proves
  that an exit keeps the invariant if and only if the process was not blocked;
  `SchedTheorems.BlockedExit` is an instance. The runs below therefore exclude such an exit.
- Unlocking does not ask who holds the semaphore. `SchedSem.UnlockExact` proves that the holders stay
  counted if and only if the caller is one of them; `SchedTheorems.StrangerUnlock` is an instance.
- Creating a file or directory does not ask whether the directory is still in the tree.
  `InitrdRun.CountsExact` proves that the link counts stay the numbers of entries, however often the
  directory is released afterwards, if and only if it is. `InitrdRun.Stranded` shows what happens
  otherwise, for any number of references: with the last of them the directory is freed, and the new
  inode stays with a link that no directory holds and a parent that is gone. `InitrdRun.Lost` is an
  instance made by four calls on a new ramdisk.

## Model

| member | source | states |
|---|---|---|
| Hmalloc.BytesToPages | libc/hmalloc/hmalloc.c:76-85 | the page count is the least that holds the request with its header and footer |
| Hmalloc.Heap.Initialize | libc/hmalloc/hmalloc.c:87-107 | after five granted pages the heap is one listed free block that fills them |
| Hmalloc.Heap.InsertFreeBlock | libc/hmalloc/hmalloc.c:321-341 | a block joins the address-sorted list and is marked free; no other block, tag or payload changes |
| Hmalloc.Heap.FindFirstFit | libc/hmalloc/hmalloc.c:343-350 | the block found is the first free block that is large enough, and none is found only if none exists |
| Hmalloc.Heap.GetNext | libc/hmalloc/hmalloc.c:352-367 | the right-hand neighbour, or null exactly for the last block |
| Hmalloc.Heap.GetPrevious | libc/hmalloc/hmalloc.c:369-385 | the left-hand neighbour, or null exactly for the first block |
| Hmalloc.Heap.GrowHeapBy | libc/hmalloc/hmalloc.c:401-431 | growth joins the new pages to a free last block, which is where the block starts, keeps the invariant and every live payload, and fails exactly when no page is asked for or granted |
| Hmalloc.Heap.MergeBlocks | libc/hmalloc/hmalloc.c:433-440 | two free neighbours become one block that spans both; all other tags and payloads stay |
| Hmalloc.Heap.OccupyBlock | libc/hmalloc/hmalloc.c:442-454 | a listed free block is taken whole or split, and the list still threads exactly the listed blocks |
| Hmalloc.Heap.RemoveFromFreeList | libc/hmalloc/hmalloc.c:456-472 | the block leaves the list wherever it is on it; nothing else changes |
| Hmalloc.Heap.ReplaceFreeListBlock | libc/hmalloc/hmalloc.c:474-497 | the leftover of a split takes the place of the split block in the list |
| Hmalloc.Heap.SplitRegion | libc/hmalloc/hmalloc.c:505-518 | a block becomes an exact block of the requested size and a leftover with their own tags |
| Hmalloc.Heap.Malloc | libc/hmalloc/hmalloc.c:179-225 | the invariant holds again, one new live block of at least the requested size appears and no live payload byte changes; a request within the growth size gets the first free block with room if there is one, whatever the page source says and without growing the heap, any other the new pages or the free block in front of them, and failure means overflow or pages that were needed and refused |
| Hmalloc.Heap.FreeBlock | libc/hmalloc/hmalloc.c:240-270 | freeing with coalescing on both sides removes exactly that block from the live ones and leaves no two free neighbours |
| Hmalloc.Heap.Free | libc/hmalloc/hmalloc.c:227-272 | freeing a pointer removes exactly its own block from the live ones, keeps the invariant and every other payload; null, foreign, interior and already free pointers change nothing at all |
| Hmalloc.Heap.UsableSize | libc/hmalloc/hmalloc.c:274-301 | the size of the live block at the pointer, 0 if there is none or nothing is initialised |
| HeapTheorems.FreeListExact | libc/hmalloc/hmalloc.c:321-472 | walking the list visits exactly the free blocks in strictly increasing address order |
| HeapTheorems.PayloadsDisjoint | libc/hmalloc/hmalloc.c:179-225 | payloads of different live blocks share no address |
| HeapTheorems.PayloadsClear | libc/hmalloc/hmalloc.c:29-39 | no header or footer of any block reaches into a live payload |
| HeapTheorems.LayoutDetermined | libc/hmalloc/hmalloc.c:227-272 | live blocks and heap ends determine the layout: every gap between live blocks is exactly one free block |
| HeapTheorems.Step | libc/hmalloc/hmalloc.c:179-272 | the client's view of one call: what it holds changes by the pointer concerned, a new pointer was not held before and has at least the size asked for, and the answer and the size of the heap are those of first fit and growth |
| HeapTheorems.Run | libc/hmalloc/hmalloc.c:179-272 | over every sequence of allocations and frees of held pointers the invariant holds, with any page source at each call, the live blocks are those handed out and not given back, every pointer is new when handed out, every call is answered by first fit or growth on the blocks of that moment, what is allocated and not freed has at least the size asked for, and blocks not freed keep their bytes |
| HeapTheorems.AnswersOnce | libc/hmalloc/hmalloc.c:179-272 | first fit and growth leave one possible answer to every call and one possible layout after it |
| Realloc.Realloc | libc/stdlib/realloc.c:6-23 | the four cases of realloc; a moved block keeps its old bytes, other payloads never change, a larger block is found by first fit or growth, and failure leaves the old block untouched |
| Pte.LowerLeafFlags | kernel/memory/vmm.c:784-796 | normalised leaf flags keep presence, write and user access, and the executable request overrides no-execute |
| Pte.NewTableEntry | kernel/memory/vmm.c:798-812 | a fresh table entry is present, writable and executable, and grants user access exactly when asked for |
| Pte.UpperLeafFlags | kernel/memory/vmm.c:784-796 | in the upper half leaf flags never give user access and forbid execution unless it was asked for |
| PageTables.HardwareSeesFlatMap | kernel/memory/vmm.c:760-782 | the four-level translation of every lower-half page is the flat map's entry, with permissions combined along the path |
| PageTables.VirtRoundTrip | kernel/memory/vmm.c:539-546 | the four table indices determine the page address |
| PageTables.PathRoundTrip | kernel/memory/vmm.c:539-546 | the page address determines the four table indices |
| PageTables.PathOrder | kernel/memory/vmm.c:539-546 | pages have the order of their indices, compared level by level from the root table down |
| Vmm.Machine.WalkToChild | kernel/memory/vmm.c:622-648 | the child table is shown in its window, created at most by taking one free frame, with user access passed on; it fails only for lack of a frame or of a table |
| Vmm.Machine.WalkToPt | kernel/memory/vmm.c:760-782 | the same for the walk down to the page table |
| Vmm.Machine.MapLeaf | kernel/memory/vmm.c:656-669 | the page gets exactly these leaf flags, new tables lie on the way to it and account for every frame taken, and the kernel's half of the root table stays |
| Vmm.Machine.MapAtPaddr | kernel/memory/vmm.c:328-345 | the mapped page translates to the new frame with normalised flags, every other page as before, failure for lack of frames changes no translation, and the kernel's half stays |
| Vmm.Machine.Unmap | kernel/memory/vmm.c:427-438 | the page no longer translates, every other page does as before; refused exactly when the page has no page table |
| VmmCopy.CopyMapping | kernel/memory/vmm.c:728-750 | the callback gives the copy this one page with equal flags and bytes in a frame of its own, although it remaps the windows of the walk, and leaves the source alone; it fails only if the supply is smaller than the whole copy needs |
| VmmCopy.CopyWalk | kernel/memory/vmm.c:671-722 | the nested walk copies exactly the present lower-half pages below each table, with the windows set up again after every callback; it stops early only if the supply is smaller than the whole copy needs |
| VmmCopy.NeedsExactly | kernel/memory/vmm.c:671-750 | a finished copy has one frame for the root, one for every table that leads to a page and one for every page |
| VmmFree.New | kernel/memory/vmm.c:221-257 | a new space has no lower-half page, shares the kernel's upper half with its own recursive slot, and takes one frame |
| VmmFree.CopyPages | kernel/memory/vmm.c:259-278 | the copy translates every lower-half page to the same permissions and bytes in frames used nowhere else and shares the kernel's half, the source is unchanged; it fails exactly when the supply has fewer frames than the tables and pages needed, and then gives back every frame it took |
| VmmFree.Copy | kernel/memory/vmm.c:259-285 | the same with the area list, which is reproduced; it fails exactly for lack of frames, of a node for an area or of the vmm_t, and then frees everything it took |
| VmmFree.DestroyWalk | kernel/memory/vmm.c:671-758 | the walk returns the frame of every table and page below it, each once |
| VmmFree.Free | kernel/memory/vmm.c:479-486 | exactly the frames of the space go back to the supply; no other frame that its kernel half leads to does |
| VmmFree.CopyThenFree | kernel/memory/vmm.c:259-285 | a copy that is freed leaves the supply of frames exactly as it was |
| Vma.FitsIsUncovered | kernel/memory/vma.c:346-370 | a range fits exactly when it lies within the limits and no address of it is covered |
| Vma.VmaList.Insert | kernel/memory/vma.c:27-106 | succeeds exactly for a valid range that misses every area (and a node to hold it), and then adds it at its sorted place |
| Vma.CoveredInsert | kernel/memory/vma.c:82-98 | an insertion adds exactly the addresses of its range |
| Vma.InsertAttributes | kernel/memory/vma.c:82-98 | the addresses of the range get its access, flags and offset, and all others keep theirs |
| Vma.VmaList.LinkBefore | kernel/memory/vma.c:383-407 | the node is linked in at its place, both ways, with all other links kept |
| Vma.VmaList.Unlink | kernel/memory/vma.c:372-381 | the node is taken out and released, with all other links kept |
| Vma.VmaList.Remove | kernel/memory/vma.c:108-204 | the area holding the start loses the requested part in one of four ways; failure only for an invalid range or a split without a node |
| Vma.CutCovered | kernel/memory/vma.c:139-201 | a removal uncovers exactly the part of the request that lies in the area holding its start |
| Vma.CutAttributes | kernel/memory/vma.c:139-201 | the addresses that stay covered keep their access, flags and offset |
| Vma.VmaList.Clear | kernel/memory/vma.c:224-232 | every node is released |
| Vma.VmaList.CopyList | kernel/memory/vma.c:206-222 | the list is reproduced, or left empty when a node is missing; a non-empty destination is refused |
| Vma.VmaList.FindFreeForward | kernel/memory/vma.c:234-267 | the least address at or above the rounded-up hint where the whole length fits, so that no page-aligned address from the hint on is passed over; failure only if there is none; page-aligned for a page-aligned lower limit |
| Vma.VmaList.FindFreeBackward | kernel/memory/vma.c:269-310 | the greatest page-aligned address at or below the hint that fits; failure only if there is none |
| Vma.VmaList.FindFreeFixed | kernel/memory/vma.c:312-332 | succeeds exactly for an aligned address where the length fits |
| ProcQueue.Queues.PushHead | kernel/mp/proc_queue.c:25-31 | the process becomes the first of that queue; all other queues, sharing the next field, stay |
| ProcQueue.Queues.PushTail | kernel/mp/proc_queue.c:33-45 | the process becomes the last of that queue; all other queues stay |
| ProcQueue.Queues.PopHead | kernel/mp/proc_queue.c:47-55 | the first process leaves and is in no queue |
| ProcQueue.Queues.InsertAfter | kernel/mp/proc_queue.c:57-63 | the process goes in right after the given one |
| ProcQueue.Queues.Remove | kernel/mp/proc_queue.c:79-101 | found exactly if queued there, and then removed with the rest in order |
| ProcQueue.Queues.FindLastPrefix | kernel/mp/proc_queue.c:137-148 | the end of the longest prefix on which the predicate holds |
| ProcQueue.Queues.SplicePrefixTail | kernel/mp/proc_queue.c:160-181 | a prefix moves to the back of another queue in order |
| ProcQueue.Queues.DropHead | kernel/mp/wait_queue.c:57-62 | the first waiter leaves, while the tail field of that one queue may go stale |
| ProcQueue.Queues.ClearTail | kernel/mp/wait_queue.c:63 | the drained queue has null head and tail, and no stale tail is left in it |
| ProcQueue.EndsExact | kernel/mp/proc_queue.c:25-181 | while no queue is being drained, head and tail of every queue are the ends of its list |
| Kernel.Scheduler.constructor | kernel/mp/scheduler.c:47-106 | the kernel process runs and the terminator task is ready |
| Kernel.Scheduler.ScheduleAdvance | kernel/mp/scheduler.c:114-148 | under a switch lock only the flag is set; otherwise a running process goes to the back and the first ready one runs |
| Kernel.Scheduler.ResumeSwitch | kernel/mp/scheduler.c:209-220 | the postponed switch happens in the outermost resume |
| Kernel.Scheduler.HandleTimer | kernel/mp/scheduler.c:222-237 | the tick on the linked queues is the tick on sequences |
| Kernel.Scheduler.WakeBefore | kernel/mp/sleep.c:62-78 | the splice and the status loop move exactly the due prefix |
| Kernel.Scheduler.DoSleep | kernel/mp/sleep.c:34-60 | the current process joins the sleepers at its place by deadline and gives up the processor |
| Kernel.Scheduler.WakeProc | kernel/mp/sleep.c:14-23 | an unqueued process becomes the last ready one |
| Kernel.Scheduler.DoBlock | kernel/mp/wait_queue.c:20-27 | the current process joins the wait queue and is switched away |
| Kernel.Scheduler.DoWakeOne | kernel/mp/wait_queue.c:38-51 | the first waiter becomes the last ready process |
| Kernel.Scheduler.DoWakeAll | kernel/mp/wait_queue.c:53-65 | all waiters become ready in their order, and every queue has its exact head and tail again |
| Kernel.Scheduler.DoFork | kernel/mp/fork.c:81-88 | with a free slot the child gets the next pid, names its parent, is named by it and is the last ready process, and nobody else changes; without one the answer is EAGAIN and nothing changes |
| Kernel.Scheduler.RemoveProc | kernel/mp/mp_utils.c:33-48 | a ready or sleeping process leaves the queue its status names; a running, blocked or dead one stays where it is |
| Kernel.Scheduler.DoExit | kernel/mp/proc.c:257-278 | the process has the exit code and is dead, moves to the dying queue, whoever waits for it is ready behind the others in order, and the current process goes behind them or is passed over |
| Kernel.Scheduler.DoFree | kernel/mp/proc.c:214-253 | parent slot and children forget the process, and it is released while in no queue |
| Kernel.Scheduler.DoReap | kernel/mp/scheduler.c:250-269 | one pass releases the dead without a parent and keeps the others in reversed order |
| Kernel.Scheduler.FindChildSlot | kernel/mp/wait.c:85-115 | the slot of the first dead match, else of the first match, else none |
| Kernel.Scheduler.CollectNow | kernel/mp/wait.c:66-83 | the dead child is unlinked from its parent and the dying queue and released |
| Kernel.Scheduler.DoWaitBegin | kernel/mp/wait.c:20-53 | waitpid up to its return or its sleep |
| Kernel.Scheduler.DoWaitEnd | kernel/mp/wait.c:49-64 | waitpid after it was woken |
| Kernel.Scheduler.DoLock | kernel/mp/semaphore.c:27-35 | a free semaphore is taken, otherwise the caller waits at the back |
| Kernel.Scheduler.DoTryLock | kernel/mp/semaphore.c:37-47 | takes a free semaphore and never waits |
| Kernel.Scheduler.DoUnlock | kernel/mp/semaphore.c:49-58 | the first waiter gets the semaphore directly, or a lock is given up |
| KernelRun.Perform | kernel/mp/scheduler.c:108-273 | every step on the real queues is the step of the machine and keeps its invariant |
| KernelRun.RunAll | kernel/mp/scheduler.c:47-273 | so is every run from initialisation, after which head and tail of all queues are exact |
| SchedInv.OnePlace | kernel/mp/mp_utils.c:18-48 | between steps the current process is the running one and every other process is in exactly one queue, the one its status names |
| SchedSteps.SwitchKeeps | kernel/mp/scheduler.c:131-148 | a switch keeps the invariant and leaves a running process |
| SchedSteps.WakeKeeps | kernel/mp/wait_queue.c:38-65 | waking sleepers or waiters keeps the invariant |
| SchedSteps.DueIsPrefix | kernel/mp/sleep.c:62-67 | in deadline order the due sleepers are exactly a prefix |
| SchedSteps.SleepOrder | kernel/mp/sleep.c:48-54 | inserting a sleeper keeps the queue sorted by deadline |
| SchedSteps.TickKeeps | kernel/mp/scheduler.c:222-237 | a tick keeps the invariant |
| SchedLife.AddKeeps | kernel/mp/scheduler.c:108-112 | adding a process keeps the invariant |
| SchedLife.ForkKeeps | kernel/mp/fork.c:81-87 | fork keeps parents and child slots symmetric and the rest of the invariant |
| SchedLife.ExitWaits | kernel/mp/proc.c:273-276 | no wake-up is lost: after an exit a process inside waitpid is asleep exactly if it has nothing to collect |
| SchedLife.ExitKeeps | kernel/mp/proc.c:257-278 | exit of the current or of another unblocked process keeps the invariant |
| SchedTheorems.ExitExact | kernel/mp/mp_utils.c:33-48 | an exit keeps the invariant if and only if the process was not blocked |
| SchedTheorems.BlockedExit | kernel/mp/mp_utils.c:33-48 | a reachable state where terminating a blocked process breaks it |
| SchedReap.NoWaiters | kernel/mp/proc.c:273-276 | nobody waits for a dead process without a parent, so its wait queues are empty when it is released |
| SchedReap.FreeKeeps | kernel/mp/proc.c:214-253 | releasing a dead process leaves nobody naming it and keeps the invariant |
| SchedReap.ReapKeeps | kernel/mp/scheduler.c:250-269 | a pass of the terminator keeps the invariant |
| SchedReap.FoundAlive | kernel/mp/wait.c:85-115 | the child search prefers a dead child, and reports none exactly if no child matches |
| SchedReap.WaitBeginKeeps | kernel/mp/wait.c:20-53 | the first half of waitpid keeps the invariant |
| SchedReap.WaitEndCollects | kernel/mp/wait.c:55-63 | a waitpid that slept always returns the pid and exit code of a dead child that matches the pid it was called with, never ECHILD |
| SchedWait.WaitBeginReplies | kernel/mp/wait.c:20-53 | what waitpid answers at once in each case, and that it sleeps only for a live match, remembering the pid |
| SchedWait.StepWaits | kernel/mp/wait.c:20-64 | no step of any process changes what another one waits for |
| SchedWait.WaitpidReturns | kernel/mp/wait.c:20-83 | from a waitpid call that sleeps, through any steps of any processes, to its return: the answer is a dead child with the pid asked for |
| SchedHistory.ExitCodeArrives | kernel/mp/wait.c:66-83 | over every run, whoever gets the pid of a process from waitpid gets the code of the exit that ended it |
| SchedHistory.ForkedFound | kernel/mp/wait.c:85-115 | over every run, a forked child is found by its parent under the pid that fork gave it until it is released: waitpid collects it when dead, and otherwise says that it lives or sleeps for it |
| SchedHistory.ForkExitWait | kernel/mp/wait.c:20-83 | from fork through any steps to the exit of the child, and through any steps to waitpid of the parent: the answer is the pid of fork with the code of the exit |
| SchedHistory.SleepOnTime | kernel/mp/sleep.c:34-78 | over every run a sleeper sleeps until the first tick at or after its deadline or its end, and that tick makes it ready or runs it |
| SchedSem.LockKeeps | kernel/mp/semaphore.c:27-35 | locking keeps holders counted, waiters only when full, and first-come order |
| SchedSem.UnlockKeeps | kernel/mp/semaphore.c:49-58 | unlocking by a holder keeps the same, so no later locker overtakes a woken waiter |
| SchedSem.UnlockExact | kernel/mp/semaphore.c:49-58 | unlocking keeps the count of holders if and only if the caller is one of them |
| SchedTheorems.StrangerUnlock | kernel/mp/semaphore.c:49-58 | a state where unlocking by a stranger breaks it |
| SchedRun.StepKeeps | kernel/mp/scheduler.c:108-273 | every step of any kind keeps the invariant |
| SchedEffects.YieldEffect | kernel/mp/scheduler.c:114-148 | the first ready process runs for a full quantum and the current one goes to the back; nothing else changes |
| SchedEffects.BlockEffect | kernel/mp/wait_queue.c:20-27 | the caller is the last of the wait queue and the first ready process runs |
| SchedEffects.WakeOneEffect | kernel/mp/wait_queue.c:38-51 | the first waiter leaves the queue and is the last ready process; the current process goes on |
| SchedEffects.WakeAllEffect | kernel/mp/wait_queue.c:53-65 | all waiters follow the ready processes in their order; the current process goes on |
| SchedEffects.SleepEffect | kernel/mp/sleep.c:34-60 | the deadline is stored, the sleeper stands behind every sleeper with the same or an earlier one, and the first ready process runs |
| SchedEffects.TickEffect | kernel/mp/scheduler.c:222-237 | the sleepers left are exactly those not due, the woken follow those already ready, and the current process goes behind them exactly when the interval uses up its quantum, of which the interval is taken otherwise |
| SchedEffects.AddEffect | kernel/mp/scheduler.c:108-112 | a process without a parent, with the next pid, is the last ready one |
| SchedEffects.ForkEffect | kernel/mp/fork.c:81-88 | parent and child name each other, the child has the next pid and is the last ready process; without a free slot nothing happens |
| SchedEffects.ExitEffect | kernel/mp/proc.c:257-278 | what an exit does to the process, its queue, those who wait for it and the processor; a second one does nothing |
| SchedEffects.LockEffect | kernel/mp/semaphore.c:27-35 | below the limit the caller becomes a holder and goes on, at the limit it waits behind the others |
| SchedEffects.TryLockEffect | kernel/mp/semaphore.c:37-47 | the same below the limit and nothing at it, with the answer that tells which |
| SchedEffects.UnlockEffect | kernel/mp/semaphore.c:49-58 | the first waiter is a holder in the place of the caller and is ready, or the count goes down by one |
| SchedEffects.WaitBeginEffect | kernel/mp/wait.c:20-53 | in each case of waitpid the answer and what changes: the first dead match is named and gone, its pid given back and its children without a parent, or the caller sleeps in the right queue |
| SchedEffects.WaitEndEffect | kernel/mp/wait.c:49-83 | a woken waitpid takes off the child that it answers |
| SchedEffects.ReapEffect | kernel/mp/scheduler.c:250-269 | every dead process without a parent is released, and nobody who is not dead or whose parent stays |
| SchedRecord.StepRecord | kernel/mp/scheduler.c:108-273 | in every step each process keeps its pid, its parent while that exists, its exit code once dead and its deadline while asleep; it dies only by its own exit and is released only when dead, giving back its pid |
| SchedRecord.Newcomer | kernel/mp/fork.c:81-88 | a new process is one that was added or forked, with the next pid and that parent |
| SchedFair.StepFair | kernel/mp/scheduler.c:131-148 | in every step each ready process moves up by the number of switches, or runs, or is terminated |
| SchedTheorems.InitialInv | kernel/mp/scheduler.c:47-106 | the invariant holds after initialisation |
| SchedTheorems.RunInv | kernel/mp/scheduler.c:108-273 | the invariant holds after every run |
| SchedTheorems.RunsWithin | kernel/mp/scheduler.c:131-148 | a process at position k of the ready queue runs within k + 1 switches, whatever the others do, unless it is terminated |
| SchedTheorems.TickExact | kernel/mp/sleep.c:62-78 | the sleepers taken off by a tick are exactly those due, in deadline order |
| SchedTheorems.Symmetric | kernel/mp/fork.c:81-87 | parent links and child slots agree and name only live processes |
| SchedTheorems.FreedOnce | kernel/mp/proc.c:214-253 | in every run a process is released at most once and its pid is not reused |
| SchedTheorems.ReleasedDead | kernel/mp/scheduler.c:254-264 | a process disappears only when dead, and is then in no queue |
| SchedTheorems.SemaphoreRuns | kernel/mp/semaphore.c:27-58 | in every run holders equal the lock count and never exceed the limit, waiters exist only when it is full, and grants follow the order of requests |
| Vfs.ComponentsJoin | kernel/fs/vfs.c:941-960 | joining a link target and the remaining path joins their components |
| Vfs.Vnodes.CrossMount | kernel/fs/vfs.c:841-852 | the reference moves from a covered node to the root mounted on it |
| Vfs.Vnodes.ComponentParent | kernel/fs/vfs.c:788-831 | the meaning of "..", refused at the root, with the reference moved |
| Vfs.Vnodes.ResolveSymlink | kernel/fs/vfs.c:1062-1096 | a link is followed from its directory or the root with the rest of the path, up to depth 40 |
| Vfs.Vnodes.WalkPath | kernel/fs/vfs.c:1109-1200 | for every path and filesystem the walk ends, agrees with the fold over components, adds one reference on success to the node found and none on failure, and frees only what had neither link nor reference before |
| VfsCwd.Prepend | kernel/fs/vfs.c:868-883 | a trimmed name and a slash go in front of the text, or nothing changes for lack of room |
| VfsCwd.StepToParent | kernel/fs/vfs.c:885-939 | one step to the parent through mounts, with the reference moved and the name written |
| VfsCwd.GetCwd | kernel/fs/vfs.c:199-230 | the buffer holds the path with its zero byte, or the exact error is returned; no reference count changes, and only what had neither link nor reference is freed |
| VfsCwd.StepBack | kernel/fs/vfs.c:885-939 | climbing from a directory undoes the lookup and the mount crossing that led to it |
| VfsCwd.RoundTrip | kernel/fs/vfs.c:199-230 | for a directory reached from the root getcwd succeeds exactly if the path fits the buffer and has fewer than 1024 names, and looking the text up finds that directory again |
| VfsPaths.Absolute | kernel/fs/vfs.c:1119-1128 | a path with a slash in front starts at the root whatever the directories given, and so does any path when none is given |
| VfsPaths.RelativeIsAbsolute | kernel/fs/vfs.c:1122-1131 | a relative path means the same as that path behind the path of the directory it is looked up in |
| VfsPaths.ParentOf | kernel/fs/vfs.c:1154-1160 | a walk to the parent finds the directory and leaves the last name, whether or not it exists |
| VfsPaths.Dots | kernel/fs/vfs.c:1162-1170 | "." changes nothing, ".." undoes the last name, also that of a mount point, and is refused at the root |
| VfsPaths.ThereAndBack | kernel/fs/vfs.c:788-831 | an entry and ".." after it lead back to the directory |
| VfsPaths.UpIsStepUp | kernel/fs/vfs.c:788-831 | ".." leads to the parent that getcwd climbs to |
| VfsPaths.MountCovers | kernel/fs/vfs.c:841-852 | a path to a mount point finds the root of what is mounted there |
| VfsPaths.LinkIsText | kernel/fs/vfs.c:1062-1096 | a symbolic link is replaced by its text, in place of the path so far if absolute and of its name if not, and refused at depth 40 |
| VfsPaths.BadLink | kernel/fs/vfs.c:712-737 | a link that cannot be read or whose text is empty or too long ends the walk with the exact error |
| VfsPaths.ChainEnds | kernel/fs/vfs.c:1062-1096 | a chain of links is followed to its end exactly if it has no more links than the depth allows |
| VfsPaths.ChdirFollows | kernel/kernel/syscalls/syscall_chdir.c:11-32 | chdir goes to the directory of a path, and a relative path from there leads where both together do |
| VfsChdir.WalkReaches | kernel/fs/vfs.c:1109-1200 | every directory that a walk finds, through "..", symbolic links and mounts, is one that a path of names leads to from the root |
| VfsChdir.ChdirRoundTrip | kernel/kernel/syscalls/syscall_chdir.c:11-32 | after any calls of chdir getcwd succeeds exactly if the path of the current directory fits, and looking the text up from anywhere finds that directory again |
| Initrd.AliasTargets | kernel/fs/initrd.c:526-570 | an alias stands for a live inode that is no alias |
| Initrd.OneEntry | kernel/fs/initrd.c:664-677 | an entry is in the list of exactly one directory, once |
| Initrd.Ramdisk.FindChild | kernel/fs/initrd.c:787-796 | the first child of that name, null exactly if there is none |
| Initrd.Ramdisk.AddChild | kernel/fs/initrd.c:664-677 | the inode joins the end of the sibling list |
| Initrd.Ramdisk.DetachChild | kernel/fs/initrd.c:855-876 | the entry leaves its directory's list |
| Initrd.Ramdisk.Create | kernel/fs/vfs.c:300-338 | a new file or directory with one link joins the directory, or the exact error is answered and nothing changes; the invariant, which allows entries only in directories of the tree, holds afterwards if and only if this is one |
| Initrd.Ramdisk.OwningMount | kernel/fs/vfs.c:1018-1060 | the climb to the root: this mount, none for a removed node, or no answer beyond 1024 levels |
| Initrd.Ramdisk.Link | kernel/fs/vfs.c:360-410 | an alias adds one entry and one link to its target; every refusal, that of a removed directory among them, is the code's and changes nothing |
| Initrd.Ramdisk.Remove | kernel/fs/vfs.c:1202-1241 | unlink and rmdir take out the first entry of that name, or answer exactly the error the code gives and change nothing |
| Initrd.Ramdisk.Release | kernel/fs/vfs.c:622-630 | an inode is freed exactly when its last reference goes and it has no links |
| Initrd.RemovedFacts | kernel/fs/vfs.c:1235-1239 | a removal takes one link, and frees the inode exactly when links and references are both gone; an alias goes with its entry; all others stay |
| Initrd.JoinAliasSound | kernel/fs/initrd.c:540-569 | hard links keep the invariant |
| Initrd.UnlinkedSound | kernel/fs/initrd.c:488-524 | removing an entry of its own keeps the invariant |
| Initrd.UnaliasedSound | kernel/fs/initrd.c:502-504 | removing an alias keeps the invariant |
| Initrd.EraseSound | kernel/fs/initrd.c:354-363 | freeing an inode without links leaves no alias or directory naming it |
| InitrdRun.LinksCounted | kernel/fs/initrd.c:488-570 | the link count of an inode is the number of directory entries that lead to it, and an inode without links is kept by a reference |
| InitrdRun.Perform | kernel/fs/vfs.c:300-410 | every call has exactly the effect of its step on the sequences of entries, and keeps the invariant if and only if it does not create in a removed directory; an inode disappears only when its links and references together were one, and no entry, alias or child names it then |
| InitrdRun.Run | kernel/fs/initrd.c:408-570 | from an empty ramdisk, through any create, mkdir, link, unlink, rmdir, borrow and release calls, each state follows from the one before by its call and is sound, up to the first creation in a removed directory |
| InitrdRun.CountsExact | kernel/fs/initrd.c:408-486 | after a creation, and any number of releases of its directory, every link count is the number of entries, if and only if the directory was in the tree |
| InitrdRun.Stranded | kernel/fs/initrd.c:354-363 | an entry made in a removed directory outlives it, with one link, no directory that lists it and a parent that is gone, whatever the number of references |
| InitrdRun.Lost | kernel/fs/initrd.c:408-452 | an instance: make and enter a directory, remove it, create a file in it, leave it |
| InitrdNames.MakeNames | kernel/fs/vfs.c:300-338 | the new name goes to the end of its directory's list of names and no other list changes; otherwise nothing does |
| InitrdNames.LinkNames | kernel/fs/vfs.c:360-410 | a file gets a second name exactly if the name is free and both nodes belong to the same mount; a directory never does |
| InitrdNames.LookGains | kernel/fs/initrd.c:787-796 | a new name leads to the new inode unless it led elsewhere before, and other names lead where they did |
| InitrdNames.VerdictNames | kernel/fs/vfs.c:1202-1241 | what unlink and rmdir answer, by where the name leads |
| InitrdNames.UnlinkNames | kernel/fs/vfs.c:1202-1241 | the first entry of that name goes and no other list changes, exactly if it leads to a file, or for rmdir to an empty directory |
| InitrdNames.WrongKind | kernel/fs/initrd.c:488-524 | unlink leaves every directory in place, rmdir every file and every directory with entries |
| InitrdNames.OwnerExact | kernel/fs/vfs.c:1018-1060 | the climb finds the mount exactly if the root is within its depth, and none exactly if a removed node is |
| InitrdNames.RefNames | kernel/fs/vfs.c:618-630 | borrowing and releasing change no name |
| Bitmap.MaskedBit | kernel/utils/bitmap.c:137-145 | masking a byte sets exactly the bits outside the searched range |
| Bitmap.FindForward | kernel/utils/bitmap.c:124-153 | the masked byte scan finds the first clear bit of the range, as a bit-by-bit search does, or there is none |
| Bitmap.FindBackward | kernel/utils/bitmap.c:155-185 | the backward scan finds the last clear bit of the range, or there is none |
| Bitmap.Map.constructor | kernel/utils/bitmap.c:22-41 | all bits have the default and the cached bounds are exact |
| Bitmap.Map.Get | kernel/utils/bitmap.c:43-49 | the bit, false outside the map |
| Bitmap.Map.Set | kernel/utils/bitmap.c:51-60 | only that bit changes and the cached bounds stay exact |
| Bitmap.Map.RefreshAfterSet | kernel/utils/bitmap.c:92-122 | the bounds are exact again after a bit was set |
| Bitmap.Map.Clear | kernel/utils/bitmap.c:62-79 | only that bit changes and the cached bounds stay exact |
| Bitmap.Map.FindClear | kernel/utils/bitmap.c:81-90 | the lowest clear bit, or failure when all are set |
| Slab.ClassForSize | kernel/memory/slab.c:37-43 | the smallest class for the size as an unsigned word |
| Slab.ClassHolds | kernel/memory/slab.c:37-43 | the class has room for the request if and only if adding the header does not wrap around |
| Slab.WrappedRequest | kernel/memory/slab.c:37-43 | the largest request is served with eight bytes |
| Slab.NoOverlap | kernel/memory/slab.c:79-85 | live objects never overlap, headers included |
| Slab.Allocator.Grow | kernel/memory/slab.c:54-89 | a new slab with all objects free goes to the front of its class |
| Slab.Allocator.AllocClass | kernel/memory/slab.c:106-134 | exactly one new live object appears, the lowest free one of the first slab that has one, without new memory, or else the first of a new slab; none only if every object of the class is in use and memory is refused |
| Slab.Allocator.Alloc | kernel/memory/slab.c:91-135 | the same for every size, large ones coming straight from malloc |
| Slab.Allocator.Free | kernel/memory/slab.c:143-183 | a live object dies and nothing else, and the memory of a large one goes back; a pointer that is not live changes nothing |
| Slab.Allocator.FreeTwice | kernel/memory/slab.c:143-183 | an immediate second free leaves what the first one left |
| Slab.FlipSound | kernel/memory/slab.c:128-129 | the free count stays the number of clear bits |
| Hbfi.SkipForward | userspace/hbfi.c:105-120 | past the partner of the bracket, or to the end if it has none |
| Hbfi.SkipBackward | userspace/hbfi.c:88-103 | past the partner of the bracket, or past itself if it has none |
| Hbfi.PartnerUnique | userspace/hbfi.c:88-120 | a bracket has at most one partner |
| Hbfi.JumpsInverse | userspace/hbfi.c:88-120 | in any source a forward jump that finds a partner and the backward jump from it are inverse |
| Hbfi.Act | userspace/hbfi.c:128-152 | the commands on the array of cells, with byte and word wrap-around |
| Hbfi.Run | userspace/hbfi.c:122-172 | the loop executes the steps of the machine, and stops at an access outside the cells |
| Hbfi.Parse | userspace/hbfi.c:105-120 | every balanced source is the text of a structured program |
| Hbfi.Simulate | userspace/hbfi.c:127-170 | the machine on the text of a program anywhere in a source does what while loops do |
| Hbfi.Equivalent | userspace/hbfi.c:122-172 | on a balanced source the interpreter and while loops end with the same tape, input and output, fault together, and run forever together |
| HbfiPrograms.CountsUp | userspace/hbfi.c:128-152 | k increments and a print give k modulo 256 |
| HbfiPrograms.CountsDown | userspace/hbfi.c:128-152 | k decrements and a print give what k lacks to a multiple of 256 |
| HbfiPrograms.Echo | userspace/hbfi.c:128-152 | a read and a print give the first byte of the input and consume it, or give 255 at its end |
| HbfiPrograms.ThereAndBack | userspace/hbfi.c:128-152 | k moves to the right and k to the left change nothing, on any tape |
| HbfiPrograms.RightPlus | userspace/hbfi.c:128-152 | an increment after k moves changes that cell alone, or is outside the tape exactly if there are not so many cells |
| HbfiPrograms.Comment | userspace/hbfi.c:168-169 | a character that is no command is skipped |
| HbfiPrograms.Adder | userspace/hbfi.c:122-172 | the loop that empties a cell into the next one adds them modulo 256, for all values, and ends |

## Left out

- Assembly, interrupt flags, port I/O, TLB flushes and FPU state: hardware effects; sections are atomic steps instead.
- The idle loop of the scheduler: not needed while the terminator task is always runnable.
- Hbfi.Run: the interpreter loop is given a bound on the number of instructions, since it need not end; the theorems are about every number.
- Hbfi.Act: reading at the end of the input gives 255, the byte that end of file becomes.
- The physical frame bitmap, the kernel address space with its recursive mapping, and boot-time table setup: the frame supply is abstract and only non-kernel spaces are modelled.
- vmm_map and its use of the area list under frame exhaustion: no agreement of areas and tables is claimed there.
- Kernel.Scheduler.ScheduleAdvance: a process that was never run before is marked running by the switch itself, while the source leaves it uninitialised until proc_prelude, which is the first thing it executes.
- Kernel.Scheduler.DoExit: the linked queues are not modelled after the exit of a blocked process, which stays linked in two queues; ExitExact states what that breaks.
- hmalloc_page_aligned and the user-space initialisation of the heap: the kernel build is modelled.
- Hmalloc.Heap.Free: a pointer inside a payload where a client has written bytes that read as the tags of a live block is excluded; what such a pointer does is not modelled.
- Hmalloc.Heap.UsableSize: the same pointers are excluded.
- Time accounting of processes, names, descriptors, address spaces and stacks of processes: they do not affect queues, families or waits.
- Failing allocations inside fork, waitpid, path lookup and directory creation: they return before anything is changed.
- vfs_symlink, execve, opening and reading files, and timestamps: they add cases and no stronger property.
- Vfs.Vnodes.WalkPath: for a walk to the parent directory that meets a symbolic link the answer of the code, the resolved node without a name, is what is stated.
- The mount operations themselves: any set of mounts is allowed in the walk, and for getcwd and chdir the agreement of a mount with its mount point, a directory, is assumed, as vfs_mount sets it up.
- Initrd.Ramdisk.Create: names need not be unique, as in the code.
- Initrd.Ramdisk.Link: the ramdisk is mounted once, at its root, so that two nodes are on different mounts only for the climb.
- Slab interrupt locking and slab_calloc: the former is atomicity, the latter only clears the object.
- Drivers, tty, framebuffer, devfs, logging, ELF loading, system call argument checks, the libc string functions, the shell and the other user tools: input/output and thin wrappers that would add only easy members.
