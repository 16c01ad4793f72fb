# Verified models of a course-lab repository

The repository collects systems and algorithm labs. This project models their hardest parts in Dafny and
proves what they promise. There is one group of modules for each part.

- **Two heap allocators.** `SegWords`, `SegLayout`, `SegLists`, `SegSteps`, `SegMoves`, `SegPlans` and
  `SegHeap` are `mm copy.c`: twenty size-ordered free lists, no footers on allocated blocks, and a
  `mm_realloc` with six cases. `ExplicitLists`, `ExplicitSteps` and `ExplicitHeap` are `mmexplicit.c`: header
  and footer on every block and one list, last in first out. The heap is an array of 4-byte words; addresses
  are offsets into it, and 0 is NULL. `Valid()` ties the words to a ghost tiling and ghost lists. The relation
  `LiveChange` says which blocks callers hold before and after, and that all others keep address and words.
  `SegSpace` accounts for the space of either heap: what callers do not hold is free, and nothing is lost.
- **The Pintos thread kernel.** `KernelLists` to `KernelFindings` and the class `Kernel.Machine` are the ready
  queues, semaphores, locks with nested donation and the sleep list. A section with interrupts off is one step.
  `thread_set_priority`, `lock_release` and the end of `lock_acquire` run with interrupts on and are several
  steps each; a `Pc` says where a preempted thread goes on. `Sound` is the invariant of every run, of any
  interleaving of these steps: lists, semaphores, locks, sleepers and base priorities. `DonorsSafe` says what
  donors are promised, which not all runs keep (see below); `Inv` is both. `KernelEffects` says of each call who
  leaves a list and from where, who joins one, and who runs; `KernelRuns` has the theorems about whole runs,
  `KernelAftermath` those about what follows a disturbance.
- **Pintos memory and files.** `PageTables` and the `Mmu` modules are the four-level page tables over a memory
  of pages (section 4.5 of the Intel SDM, volume 3A), `Arena...` is `malloc`, and `Inode...` are the sector-wise
  transfers, the table of open inodes, and the histories of its calls (`InodeHistory`).
- **Proxy and buffered reader.** `ProxyCache` is the cache array with its stamps, `BufferedReader` the `rio`
  package.
- **Algorithms.** `PowerStrip`, `LostParentheses` and `MeetingRooms` are greedy programs proved optimal;
  `MazeBfs`, `TopologicalSort`, `BstPreorder`, `BstBuilder` and `PostorderStack` are graph and tree programs.

`dafny verify dfyconfig.toml` checks the whole project.

## What turned out not to hold

- `mm copy.c` declares a least block of 8 bytes, but a free block needs 16: `SegWords.FreeNeedsSixteen`. Requests
  of five bytes or more always get 16.
- `lock_release` clears the holder, and only the next owner sets it again. A thread that keeps the processor can
  meet the lock without a holder on its donation walk and read through NULL: `KernelFindings.ReleaseExposesNull`,
  with a run from start-up in `WalkCanMeetNull`; `KernelAcquire.AcquireGoesWell` says exactly when.
- `thread_set_priority` may leave a priority that nothing justifies: `KernelRelease.SetPriorityJustified` is the
  exact condition, `KernelFindings.UnjustifiedPriority` a run that leads there.
- `thread_set_priority` and `lock_release` read the donors and act on them later, with interrupts on. A thread
  that registers in between is overlooked. A tick after `thread_set_priority` has found no donors can leave the
  thread below a registered donor (`KernelFindings.SetPriorityCanUndercut`); a tick before `lock_release` clears
  the holder can leave a donor registered for a lock that was given up (`ReleaseCanKeepDonor`). The rule that
  every thread covers its donors therefore holds only of some runs (`KernelRuns.EveryDonorIsCovered`), while
  `EveryRunIsSafe` holds of all. An acquisition keeps the rule if and only if it does not register with a thread
  that is giving up this lock and lifts no donor above a priority about to be assigned
  (`KernelSteps.AfterAcquire`, `KernelAcquire.DonatedPlans`); with interrupts off around the two functions this is
  always so (`NothingToDisturb`). Once it is not, nothing that others do helps, and the next steps of the
  disturbed thread break the rule (`KernelAftermath.DisturbanceTells`, `OvertakenStep`, `AwaitedStep`).
- `lock_release` gives way only to the thread it wakes, although it may lower its own priority. Without a waiter
  more urgent than itself a thread can run on while a more urgent one is ready: `KernelEffects.ReleaseTops` is
  the exact condition, `KernelFindings.ReleaseCanLeaveOutranked` a run without any preemption.
- `pml4_set_page` maps one frame at several pages without objection, and `pml4_destroy` then gives it back
  several times: `MmuProcesses.FreedOnceIffInjective` is the exact condition, `FrameFreedTwice` an example.
- `pml4_set_dirty` and `pml4_set_accessed` clear with `~(uint32_t)`, which also clears the upper half of the
  entry: `PageTables.ClearNarrowKeeps`.
- A comment in `pml4_destroy` calls everything from entry 1 of the root kernel space, but user addresses reach
  into entry 1. Pages there are shared by all processes and never freed: `MmuProcesses.PrivateIsBelow512G` and
  `HighPagesAreShared`.
- The size of a big block of `malloc` wraps around near the end of `size_t`: `ArenaMalloc.PageCountIsEnough`.
- The preorder program accepts equal keys unless they are adjacent, and then fails: `BstBuilder.Run`.
- Some comments say otherwise than the code, and the models follow the code: the constant named for 4096 in
  `mmexplicit.c` is 1024, its `mm_free` does free, and `find_fit` of `mm copy.c` scans further classes too for
  small requests.

## Model

| member | source | states |
|---|---|---|
| PowerStrip.CountUnplugs | week5/problem-solving/난이도상_그리디_멀티탭스케줄링_골드1.py:59-95 | The printed count is the number of unplugs of some schedule that has each requested device plugged at its turn and never more than `aum` devices plugged, and no such schedule unplugs fewer times; for every request sequence and every `aum` of at least 1. |
| PowerStrip.FewestUnplugs | week5/problem-solving/난이도상_그리디_멀티탭스케줄링_골드1.py:65-93 | A run that stays ahead of every competitor in insertions is also least in removals, because a strip that ever unplugged stays full. |
| PowerStrip.PlugConservation | week5/problem-solving/난이도상_그리디_멀티탭스케줄링_골드1.py:68-93 | In any schedule the insertions so far equal the removals so far plus what is plugged now. |
| PowerStrip.CompetitorGain | week5/problem-solving/난이도상_그리디_멀티탭스케줄링_골드1.py:62-93 | One request lets a competitor gain, among the devices needed before any horizon, at most what it inserts, less the use it has just consumed. |
| PowerStrip.HitKeepsUp | week5/problem-solving/난이도상_그리디_멀티탭스케줄링_골드1.py:65-66 | On a hit the strip stays no further behind any competitor than the insertions already allow, whatever the competitor does. |
| PowerStrip.MissIsPaid | week5/problem-solving/난이도상_그리디_멀티탭스케줄링_골드1.py:68-93 | On a miss the competitor either was ahead by the device it holds or inserts it now, so the strip has still not inserted more than it. |
| PowerStrip.MissKeepsUp | week5/problem-solving/난이도상_그리디_멀티탭스케줄링_골드1.py:68-93 | Filling a free socket, or evicting a device whose next use is no sooner than that of any other, keeps the strip no further behind, for every horizon. |
| PowerStrip.EverythingNeeded | week5/problem-solving/난이도상_그리디_멀티탭스케줄링_골드1.py:72-92 | If even the evicted device is needed before a horizon, every socket holds something needed before it, and no competitor can hold more of these. |
| PowerStrip.ChooseVictim | week5/problem-solving/난이도상_그리디_멀티탭스케줄링_골드1.py:72-90 | The slot chosen by the search loop holds a device whose next use is at least as late as that of every plugged device, never used again counting as latest. |
| PowerStrip.FindNextUse | week5/problem-solving/난이도상_그리디_멀티탭스케줄링_골드1.py:78-82 | The inner search returns the first later request for the device, and -1 exactly when there is none. |
| PowerStrip.EvictProgress | week5/problem-solving/난이도상_그리디_멀티탭스케줄링_골드1.py:92-93 | An eviction of a farthest device adds one unplug and leaves the run ahead of all schedules. |
| SegHeap.Allocator.Init | C언어/malloc_lab_docker/malloc-lab/mm copy.c:193-213 | A fresh heap meets the whole invariant (blocks tile it, every prev_alloc bit is true, free blocks lie on the size-ordered list of their class and are never adjacent), with no block handed out; it fails exactly when the memory is too small. The break is then at 16 + CHUNKSIZE. |
| SegHeap.Allocator.GetListIndex | C언어/malloc_lab_docker/malloc-lab/mm copy.c:103-114 | The loop finds the size class, and classes of larger index hold larger sizes only (with ClassesAreOrdered). |
| SegLists.ClassesAreOrdered | C언어/malloc_lab_docker/malloc-lab/mm copy.c:103-114 | A smaller class index means a smaller size, for all sizes. |
| SegHeap.Allocator.InsertBlock | C언어/malloc_lab_docker/malloc-lab/mm copy.c:148-172 | The block joins the list of its class at the place its size demands; the lists stay linked, distinct and ordered, and nothing else changes for anybody. |
| SegLists.InsertListed | C언어/malloc_lab_docker/malloc-lab/mm copy.c:148-172 | The three or four link writes of an insertion leave all twenty lists well linked and ordered, with the block on the list of its class. |
| SegHeap.Allocator.RemoveBlock | C언어/malloc_lab_docker/malloc-lab/mm copy.c:174-187 | The block leaves the one list it was on; the lists stay linked, distinct and ordered. |
| SegLists.RemoveListed | C언어/malloc_lab_docker/malloc-lab/mm copy.c:174-187 | The link writes of a removal leave all lists well linked and ordered, and the block on none. |
| SegWords.FreeNeedsSixteen | C언어/malloc_lab_docker/malloc-lab/mm copy.c:135-142 | Writing a free block leaves its footer and the header behind it readable if and only if the block has at least 16 bytes; at the declared minimum of 8 the links overwrite them. |
| SegWords.WriteFreeEffect | C언어/malloc_lab_docker/malloc-lab/mm copy.c:135-142 | For 16 bytes or more the five writes set header, footer, links and the next prev_alloc bit, and nothing outside the block and that bit. |
| SegWords.WriteAllocEffect | C언어/malloc_lab_docker/malloc-lab/mm copy.c:129-133 | Writing an allocated block changes its header and the prev_alloc bit behind it, and no other word: there is no footer. |
| SegLayout.PreviousBlock | C언어/malloc_lab_docker/malloc-lab/mm copy.c:235-274 | In a tiled heap every block but the first has a block ending where it starts, and its prev_alloc bit says whether that one is allocated. |
| SegLayout.CutTiled | C언어/malloc_lab_docker/malloc-lab/mm copy.c:235-355 | Replacing the blocks of any stretch by one or two new ones keeps the heap tiled with truthful prev_alloc bits. |
| SegHeap.Allocator.ExtendHeap | C언어/malloc_lab_docker/malloc-lab/mm copy.c:215-233 | NULL exactly when the break cannot move that far, and then nothing changes; otherwise a free block of at least the size asked for, all live blocks untouched, the invariant kept. The break moves by exactly that size, rounded up to 8. |
| SegHeap.Allocator.Coalesce | C언어/malloc_lab_docker/malloc-lab/mm copy.c:235-274 | In all four cases the free block in transit ends up in a free block that covers it, listed, without free neighbours; no live block changes. |
| SegMoves.MergePlan | C언어/malloc_lab_docker/malloc-lab/mm copy.c:235-274 | After the neighbours have left their lists, rewriting the stretch as one free block and listing it restores the whole invariant. |
| SegMoves.AfterFree | C언어/malloc_lab_docker/malloc-lab/mm copy.c:235-274 | Between calls the block behind a free block is allocated: no two free blocks are adjacent. |
| SegHeap.Allocator.FindFit | C언어/malloc_lab_docker/malloc-lab/mm copy.c:280-316 | Returns a free block of least size among all free blocks of the heap that fit, and NULL exactly when none fits, although larger classes are asked for their first block only. |
| SegHeap.HeadOfList | C언어/malloc_lab_docker/malloc-lab/mm copy.c:308-312 | The head of a list of a larger class fits and is the smallest of its list. |
| SegHeap.BestInClass | C언어/malloc_lab_docker/malloc-lab/mm copy.c:280-316 | A best fit within one class, when smaller classes have no fit, is a best fit of the whole heap. |
| SegHeap.Allocator.BestOfList | C언어/malloc_lab_docker/malloc-lab/mm copy.c:292-307 | The scan returns the smallest fitting block of the list, and NULL only when the list has none. |
| SegHeap.Allocator.Place | C언어/malloc_lab_docker/malloc-lab/mm copy.c:327-355 | The caller gains one new aligned block, at the front of the free block, or at its end if both parts reach the threshold of 100 bytes; it has exactly `asize` bytes if the rest has at least 16, and all of the block otherwise; that rest is a free block on the list of its class, and every other live block keeps address and contents. |
| SegHeap.RestListed | C언어/malloc_lab_docker/malloc-lab/mm copy.c:335-354 | That a block of the stated size and place was gained already means that the rest of the old free block is a free block on the list of its class. |
| SegPlans.EndPlan | C언어/malloc_lab_docker/malloc-lab/mm copy.c:337-344 | A large remainder kept in front and listed leaves the tail ready to be handed out, whatever happens to the links. |
| SegHeap.Allocator.Malloc | C언어/malloc_lab_docker/malloc-lab/mm copy.c:357-382 | NULL, for a positive size, if and only if no free block fits and the break cannot move by the size then asked for, and then nothing changes; otherwise a new 8-aligned live block of at least the adjusted size and less than 16 bytes more, taken from a smallest free block that fits, or, when there is none, after the heap has grown by exactly what is asked for; the free bytes fall by exactly its size, that growth apart; all others untouched, the invariant kept. |
| SegHeap.Allocator.Free | C언어/malloc_lab_docker/malloc-lab/mm copy.c:384-396 | Exactly the block given back stops being live, all other live blocks keep address and contents, and the invariant is kept. The free bytes rise by exactly its size. |
| SegHeap.Allocator.Realloc | C언어/malloc_lab_docker/malloc-lab/mm copy.c:409-571 | In all six cases the result is an aligned live block with room for the new payload whose first min(old, new) bytes are the old ones, every other live block keeps address and bytes, the invariant is kept. For a live block and a positive size NULL comes, with nothing changed, if and only if the block is too small, cannot grow over a free block behind it, over the break, or over both, cannot move down into a free block in front, and no free block fits and the break cannot move. The block has less than 16 bytes more than it needs; it stays where it is if it can grow there, and goes into the free block in front if only that helps; the break moves by exactly what the case taken asks for; the free bytes change by exactly the difference of the two blocks and this growth. |
| SegHeap.Allocator.ReallocShrink | C언어/malloc_lab_docker/malloc-lab/mm copy.c:436-450 | Case 1: the block stays, with its contents up to the new size, and a remainder that can stand alone is freed and coalesced. |
| SegHeap.Allocator.ReallocIntoNext | C언어/malloc_lab_docker/malloc-lab/mm copy.c:452-470 | Case 2: the block grows over the free block behind it and keeps its contents. |
| SegHeap.Allocator.ReallocAtEnd | C언어/malloc_lab_docker/malloc-lab/mm copy.c:472-495 | Case 3: succeeds if and only if the break can move by what is missing, at least 16 bytes; the last block then grows with the heap and keeps its contents, and otherwise nothing changes. |
| SegHeap.Allocator.ReallocNextAndEnd | C언어/malloc_lab_docker/malloc-lab/mm copy.c:497-525 | Case 4: succeeds if and only if the break can move by what the block and the free block behind it lack; the block then grows over both, keeping its contents, and otherwise nothing changes. |
| SegHeap.Allocator.ReallocInPlace | C언어/malloc_lab_docker/malloc-lab/mm copy.c:452-525 | Cases 2, 3 and 4 together succeed if and only if the block can grow where it is, and change nothing otherwise. |
| SegHeap.Allocator.ReallocIntoPrev | C언어/malloc_lab_docker/malloc-lab/mm copy.c:527-558 | Case 5: declines if and only if the free block in front, the block and a free block behind are together too small; otherwise the contents move down, intact although source and destination overlap, and the stretch is split again if something is left. |
| SegHeap.Allocator.ReallocByCopy | C언어/malloc_lab_docker/malloc-lab/mm copy.c:560-570 | Case 6: NULL if and only if no free block fits and the break cannot move, and then nothing changes; otherwise a new block holds the old contents as far as both go, and the old block is given back. |
| SegHeap.Allocator.MoveBytes | C언어/malloc_lab_docker/malloc-lab/mm copy.c:527-570 | Moving bytes to a lower, possibly overlapping place, or between disjoint places, delivers exactly the old bytes and changes nothing outside the destination. |
| SegPlans.MovedDown | C언어/malloc_lab_docker/malloc-lab/mm copy.c:527-558 | Removals, the overlapping move and the rewriting together amount to a resize that keeps the common prefix. |
| SegPlans.Copied | C언어/malloc_lab_docker/malloc-lab/mm copy.c:560-570 | Allocation, copy and release together amount to a resize that keeps the common prefix and every other live block. |
| SegPlans.GrowAllocPlan | C언어/malloc_lab_docker/malloc-lab/mm copy.c:472-525 | Growing a block over everything up to the new break restores the invariant and keeps its words. |
| SegSpace.SpaceIsShared | C언어/malloc_lab_docker/malloc-lab/mm copy.c:193-396 | Between calls the space of the callers and the free space are apart and together all between prologue and break: nothing is lost. |
| SegSpace.FreeSpaceAfter | C언어/malloc_lab_docker/malloc-lab/mm copy.c:215-571 | What callers give up becomes free space, what they gain stops being free, the growth of the heap is free space first, and no other address changes sides. |
| SegSpace.FreeBytesAfter | C언어/malloc_lab_docker/malloc-lab/mm copy.c:215-571 | So the free bytes change by exactly the growth, plus the block given up, less the block gained. |
| SegSpace.GapIsFree | C언어/malloc_lab_docker/malloc-lab/mm copy.c:235-274 | Between two allocated blocks without another between them lies exactly one free block. |
| SegSpace.LayoutIsSettled | C언어/malloc_lab_docker/malloc-lab/mm copy.c:235-396 | Two states between calls, with the same break, in which callers hold the same blocks have the same blocks altogether, whatever the history. |
| ExplicitHeap.Allocator.Init | C언어/malloc_lab_docker/malloc-lab/mmexplicit.c:92-110 | A fresh heap meets the whole invariant with no block handed out; it fails exactly when the memory is too small. The break is then at 16 plus one extension. |
| ExplicitHeap.Allocator.ExtendHeap | C언어/malloc_lab_docker/malloc-lab/mmexplicit.c:111-128 | NULL exactly when the break cannot move, and then nothing changes; otherwise a free block of at least that size, all live blocks untouched. |
| ExplicitHeap.Allocator.Coalesce | C언어/malloc_lab_docker/malloc-lab/mmexplicit.c:130-243 | In all four cases the result is a free block at least as large, the free list holds every free block once, no two are adjacent, and no live block changes. That block is at the head of the list, and the other free blocks on the list keep their order. |
| ExplicitHeap.StaleFooter | C언어/malloc_lab_docker/malloc-lab/mmexplicit.c:205-242 | After the merge the footer that used to end the previous block is still in place, so the second use of PREV_BLKP finds the merged block. |
| ExplicitSteps.MergeStep | C언어/malloc_lab_docker/malloc-lab/mmexplicit.c:152-243 | Equal header and footer at the ends of an open stretch of free blocks make it one free block, everything else as tidy as before. |
| ExplicitSteps.PushStep | C언어/malloc_lab_docker/malloc-lab/mmexplicit.c:143-149 | Putting the one block of an open stretch in front of the list restores the invariant without touching a live block. |
| ExplicitLists.UnlinkKeeps | C언어/malloc_lab_docker/malloc-lab/mmexplicit.c:284-292 | Taking a block out of the list, wherever it stands, leaves the others doubly linked in the same order, and changes pointers of free blocks only. |
| ExplicitLists.PushKeeps | C언어/malloc_lab_docker/malloc-lab/mmexplicit.c:307-312 | Putting a block in front leaves the list doubly linked, and changes pointers of free blocks only. |
| ExplicitSteps.ListIsExact | C언어/malloc_lab_docker/malloc-lab/mmexplicit.c:130-321 | Between calls a block is on the list if and only if it is free, and no block is there twice. |
| ExplicitSteps.FreeThenAllocated | C언어/malloc_lab_docker/malloc-lab/mmexplicit.c:130-243 | Between calls the block behind a free block is allocated. |
| ExplicitSteps.NoPointer | C언어/malloc_lab_docker/malloc-lab/mmexplicit.c:75-79 | No header, no footer and no word of an allocated block is ever a pointer of a free block: every free block has the room of MIN_FREE_BLOCK_SIZE. |
| ExplicitHeap.Allocator.FindFit | C언어/malloc_lab_docker/malloc-lab/mmexplicit.c:256-272 | Returns the first block of the list that fits, and NULL only when no free block of the heap is large enough. |
| ExplicitHeap.Allocator.Place | C언어/malloc_lab_docker/malloc-lab/mmexplicit.c:274-321 | The block becomes live, shortened to `asize` when at least MIN_FREE_BLOCK_SIZE bytes remain; these form a listed free block; other live blocks are untouched. The rest is at the head of the list, and the others keep their order. |
| ExplicitSteps.TakeFrontStep | C언어/malloc_lab_docker/malloc-lab/mmexplicit.c:293-312 | Four tags split an open stretch into a live block and a stretch that is open again. |
| ExplicitHeap.Allocator.Malloc | C언어/malloc_lab_docker/malloc-lab/mmexplicit.c:327-354 | NULL if and only if the size is 0, or no free block is large enough and the break cannot move, and then nothing changes; otherwise a new aligned block of at least the adjusted size and less than MIN_FREE_BLOCK_SIZE bytes more, at the start of the first block of the list that fits, or, when there is none, after the heap has grown by exactly what is asked for; the free bytes fall by exactly its size, that growth apart; all others untouched. |
| ExplicitHeap.Allocator.Free | C언어/malloc_lab_docker/malloc-lab/mmexplicit.c:247-254 | Any live block, however small the request was, can be given back: it alone stops being live, and the invariant is kept. The free block that covers it is at the head of the list, the other free blocks keep their order, and the free bytes rise by exactly its size. |
| ExplicitHeap.Allocator.Realloc | C언어/malloc_lab_docker/malloc-lab/mmexplicit.c:425-449 | The result is a new aligned block whose first min(old, new) bytes are the old ones, the old block is given back, every other live block keeps its bytes; for a positive size NULL comes, with nothing changed, if and only if no free block is large enough and the break cannot move. The new block has less than MIN_FREE_BLOCK_SIZE bytes more than needed; break and free bytes change by exactly the growth and the two blocks. |
| ExplicitHeap.PayloadStep | C언어/malloc_lab_docker/malloc-lab/mmexplicit.c:446-446 | Writing inside the payload of a live block keeps the whole invariant and every other live block. |
| ExplicitHeap.MovedDone | C언어/malloc_lab_docker/malloc-lab/mmexplicit.c:438-448 | Allocation, copy and release together keep the common prefix and every other live block. |
| KernelMeaning.ElemOnOneList | 핀토스/pintos_threads_lab - 복사본/pintos/threads/thread.c:244-255 | A thread is on at most one of the ready queues, waiter lists and the sleep list, which share its `elem`. |
| KernelMeaning.NobodyIsForgotten | 핀토스/pintos_threads_lab - 복사본/pintos/threads/thread.c:228-351 | Every living thread but the running and the idle one is on one of these lists. |
| KernelMeaning.NoWakeupIsLost | 핀토스/pintos_threads_lab - 복사본/pintos/threads/synch.c:114-184 | While threads wait for a semaphore, its value does not exceed the number of threads that were woken on it and have yet to run its test again, all of them ready or running. |
| KernelMeaning.MutualExclusion | 핀토스/pintos_threads_lab - 복사본/pintos/threads/synch.c:253-321 | Two threads between taking a lock and giving it back are the same thread. |
| KernelMeaning.PriorityAlongChain | 핀토스/pintos_threads_lab - 복사본/pintos/threads/synch.c:253-284 | Along a chain of registered donations of any length, priority never drops from donor to holder. |
| KernelSwitch.NextIsHighest | 핀토스/pintos_threads_lab - 복사본/pintos/threads/thread.c:459-468 | The thread chosen has the greatest priority among the ready threads and has been ready longest among its equals; the idle thread is chosen only when nobody is ready. |
| KernelSwitch.DispatchKeeps | 핀토스/pintos_threads_lab - 복사본/pintos/threads/thread.c:598-633 | A thread switch keeps both invariants, whoever is chosen. |
| KernelSwitch.YieldKeeps | 핀토스/pintos_threads_lab - 복사본/pintos/threads/thread.c:307-318 | Yielding keeps both invariants. |
| KernelSwitch.StopKeeps | 핀토스/pintos_threads_lab - 복사본/pintos/threads/thread.c:228-302 | Blocking the idle thread and ending any other keep both invariants up to the switch that follows. |
| KernelSync.BlockOnKeeps | 핀토스/pintos_threads_lab - 복사본/pintos/threads/synch.c:114-127 | Joining the waiters and blocking keep both invariants: no list gets a thread twice, and no wakeup is lost. |
| KernelSync.TakeKeeps | 핀토스/pintos_threads_lab - 복사본/pintos/threads/synch.c:114-152 | Taking a positive semaphore keeps both invariants, in particular a lock that is taken had nobody inside. |
| KernelSync.UpKeeps | 핀토스/pintos_threads_lab - 복사본/pintos/threads/synch.c:159-184 | Waking one of the waiters of greatest priority and raising the value keep both invariants. Which waiter it is, and what becomes of the lists, is stated by KernelEffects.UpDoesAs. |
| KernelSync.GotKeeps | 핀토스/pintos_threads_lab - 복사본/pintos/threads/synch.c:279-284 | Becoming the holder keeps both invariants. |
| KernelSync.LockUpKeeps | 핀토스/pintos_threads_lab - 복사본/pintos/threads/synch.c:312-321 | The release of the semaphore at the end of `lock_release` keeps both invariants. |
| KernelDonate.WalkRaises | 핀토스/pintos_threads_lab - 복사본/pintos/threads/synch.c:268-278 | The walk along holders and the locks they wait for raises exactly the threads it visits, to at least the donated priority, and changes nothing else but queue positions. |
| KernelDonate.WalkKeeps | 핀토스/pintos_threads_lab - 복사본/pintos/threads/synch.c:268-278 | The walk keeps all lists, semaphores and locks; and if only the first holder may run below its donor, it restores the rule that every thread covers its donors, however long the chain. |
| KernelDonate.UpdateKeeps | 핀토스/pintos_threads_lab - 복사본/pintos/threads/thread.c:338-351 | Changing the priority of a thread, ready or not, keeps it on the queue of its priority and keeps all lists. |
| KernelDonate.DonationKeeps | 핀토스/pintos_threads_lab - 복사본/pintos/threads/synch.c:253-278 | Registering with the holder and walking the chain keep all that concerns lists, semaphores, locks and sleepers in any case, and registered donors where it held. |
| KernelDonate.RefreshedCovers | 핀토스/pintos_threads_lab - 복사본/pintos/threads/synch.c:79-92 | The refreshed priority covers the base priority and every donor, and is one of these. |
| KernelRelease.OwnStepDonates | 핀토스/pintos_threads_lab - 복사본/pintos/threads/thread.c:322-334 | When the running thread changes its own priority and donors, every thread covers its registered donors afterwards if and only if this one covers those it keeps. |
| KernelRelease.BaseWrittenKeeps | 핀토스/pintos_threads_lab - 복사본/pintos/threads/thread.c:325-325 | Step 1 of `thread_set_priority`, writing the base priority, keeps both invariants. |
| KernelRelease.DecidedKeeps | 핀토스/pintos_threads_lab - 복사본/pintos/threads/thread.c:327-329 | Step 2, looking at the donors and the priority, keeps both invariants: a priority it decides to assign covers all donors registered so far. |
| KernelRelease.AssignedKeeps | 핀토스/pintos_threads_lab - 복사본/pintos/threads/thread.c:328-330 | Step 3, the assignment, also that of `refresh_priority`, keeps lists, semaphores, locks and sleepers in order in any case, and what donors are promised when no acquisition has disturbed the thread since it decided. |
| KernelRelease.AssignedCovers | 핀토스/pintos_threads_lab - 복사본/pintos/threads/thread.c:328-330 | In any state, also after a disturbance, the assignment leaves every thread at or above its registered donors if and only if the priority assigned covers those registered by now. |
| KernelRelease.DonorsDroppedKeeps | 핀토스/pintos_threads_lab - 복사본/pintos/threads/synch.c:316-316 | Step 1 of `lock_release`, dropping the donors of the lock, keeps both invariants. |
| KernelRelease.ComputedKeeps | 핀토스/pintos_threads_lab - 복사본/pintos/threads/synch.c:79-90 | Step 2, sorting the donors and computing the new priority, keeps both invariants. |
| KernelRelease.HolderClearedKeeps | 핀토스/pintos_threads_lab - 복사본/pintos/threads/synch.c:319-319 | Step 4, clearing the holder, keeps lists, semaphores, locks and sleepers in order in any case, and what donors are promised when no acquisition has disturbed the thread since it dropped its donors. |
| KernelRelease.HolderClearedDonates | 핀토스/pintos_threads_lab - 복사본/pintos/threads/synch.c:319-319 | In any state, also after a disturbance, clearing the holder leaves every registered donor waiting for a lock that the other thread holds if and only if nobody registered by now waits for this lock. |
| KernelRelease.ReleaseKeeps | 핀토스/pintos_threads_lab - 복사본/pintos/threads/synch.c:312-319 | An uninterrupted `lock_release` up to its `sema_up` keeps both invariants. |
| KernelRelease.ReleaseIsExact | 핀토스/pintos_threads_lab - 복사본/pintos/threads/synch.c:64-92 | After an uninterrupted release the priority is exactly the greatest of the base priority and the remaining donors, the base priority when none remains; the donors dropped are exactly those that wait for this lock. |
| KernelRelease.SetPriorityKeeps | 핀토스/pintos_threads_lab - 복사본/pintos/threads/thread.c:322-334 | An uninterrupted `thread_set_priority` keeps both invariants. |
| KernelRelease.SetPriorityJustified | 핀토스/pintos_threads_lab - 복사본/pintos/threads/thread.c:322-334 | The priority after an uninterrupted call is the base priority or that of a donor if and only if there is no donor, the new priority is no lower than the current one, or some donor has the current one. |
| KernelAcquire.WalkEndsOrMeetsNull | 핀토스/pintos_threads_lab - 복사본/pintos/threads/synch.c:268-278 | On an acyclic wait-for graph the walk ends, and it ends without reading a NULL holder if and only if no lock on the chain is without a holder. |
| KernelAcquire.AcquireGoesWell | 핀토스/pintos_threads_lab - 복사본/pintos/threads/synch.c:253-279 | An acquisition that closes no circle of waits goes well if and only if the lock is free or no lock reached from it through holders and the locks they wait for is free. |
| KernelAcquire.DonatedPlans | 핀토스/pintos_threads_lab - 복사본/pintos/threads/synch.c:260-279 | What threads preempted inside `thread_set_priority` or `lock_release` have read stays true through a donation if and only if it disturbs none: it does not register with a thread that is giving up this lock, nor lift a donor above a priority about to be assigned. |
| KernelAcquire.NothingToDisturb | 핀토스/pintos_threads_lab - 복사본/pintos/threads/synch.c:253-279 | When no thread has been preempted inside those two functions, as when callers turn interrupts off around them, no acquisition disturbs anything. |
| KernelAcquire.WaitClearedKeeps | 핀토스/pintos_threads_lab - 복사본/pintos/threads/synch.c:282-282 | Clearing `waiting_lock` after `sema_down`, before the holder is set, keeps both invariants. |
| KernelTimer.SleepKeepsAll | 핀토스/pintos_threads_lab - 복사본/pintos/devices/timer.c:104-115 | Going to sleep puts the thread into the sleep list in order of wakeup ticks and keeps both invariants. |
| KernelTimer.WakingIsExact | 핀토스/pintos_threads_lab - 복사본/pintos/devices/timer.c:143-157 | The popping loop wakes exactly the sleepers whose tick is now, and keeps both invariants. |
| KernelTimer.TickKeeps | 핀토스/pintos_threads_lab - 복사본/pintos/devices/timer.c:143-157 | An interrupt keeps both invariants; afterwards exactly the threads whose tick has not come are asleep. |
| KernelLists.FirstMaxIsFirst | 핀토스/pintos_threads_lab - 복사본/pintos/threads/synch.c:46-52 | The waiter chosen has the greatest priority and is the earliest such waiter. |
| KernelLists.InsertByTickOrdered | 핀토스/pintos_threads_lab - 복사본/pintos/devices/timer.c:34-41 | Inserting by wakeup tick keeps the sleep list ordered. |
| KernelSteps.AfterDown | 핀토스/pintos_threads_lab - 복사본/pintos/threads/synch.c:114-127 | One pass through `sema_down`, with the switch if it waits, leads from any sound state to a sound state, and keeps what donors are promised. |
| KernelSteps.AfterUp | 핀토스/pintos_threads_lab - 복사본/pintos/threads/synch.c:159-184 | `sema_up` with its yield leads from any sound state to a sound state, and keeps what donors are promised. |
| KernelSteps.AfterAcquire | 핀토스/pintos_threads_lab - 복사본/pintos/threads/synch.c:253-278 | `lock_acquire` up to the end of its first pass through `sema_down` leads from any sound state to a sound state; and what donors are promised stays true if and only if the acquisition disturbs no preempted thread. |
| KernelSteps.AfterRelease | 핀토스/pintos_threads_lab - 복사본/pintos/threads/synch.c:312-319 | An uninterrupted `lock_release` up to its `sema_up` leads from any sound state to a sound state, and keeps what donors are promised. |
| KernelSteps.AfterLockUp | 핀토스/pintos_threads_lab - 복사본/pintos/threads/synch.c:320-320 | The `sema_up` of `lock_release` with its yield leads from any sound state to a sound state, and keeps what donors are promised. |
| KernelSteps.AfterSetPriority | 핀토스/pintos_threads_lab - 복사본/pintos/threads/thread.c:322-334 | An uninterrupted `thread_set_priority` with its yield leads from any sound state to a sound state, and keeps what donors are promised. |
| KernelSteps.AfterSleep | 핀토스/pintos_threads_lab - 복사본/pintos/devices/timer.c:104-115 | `timer_sleep`, for positive and other arguments, leads from any sound state to a sound state, and keeps what donors are promised. |
| KernelSteps.AfterTick | 핀토스/pintos_threads_lab - 복사본/pintos/devices/timer.c:143-157 | A timer interrupt with the yield on return leads from any sound state to a sound state, and keeps what donors are promised. |
| KernelSteps.AfterCreate | 핀토스/pintos_threads_lab - 복사본/pintos/threads/thread.c:186-219 | Creating a thread, with the yield to it if it is more urgent, leads from any sound state to a sound state, and keeps what donors are promised. |
| KernelSteps.AfterStop | 핀토스/pintos_threads_lab - 복사본/pintos/threads/thread.c:290-302 | The end of a thread leads from any sound state to a sound state, and keeps what donors are promised. |
| KernelEffects.SwitchDoes | 핀토스/pintos_threads_lab - 복사본/pintos/threads/thread.c:459-633 | A switch takes the front thread of one queue, which no ready thread outranks, and runs it, or the idle thread when nobody else is ready; no other list or thread changes, and no ready thread outranks the running one afterwards. |
| KernelEffects.YieldDoes | 핀토스/pintos_threads_lab - 복사본/pintos/threads/thread.c:307-318 | A thread that yields joins the end of the queue of its priority, and a switch follows. |
| KernelEffects.UpDoesAs | 핀토스/pintos_threads_lab - 복사본/pintos/threads/synch.c:159-184 | `sema_up` raises the value by one; with waiters, the earliest of greatest priority leaves the list, the others keep their order, and it alone becomes ready, last in the queue of its priority; without, nobody moves. |
| KernelEffects.UpHasEffect | 핀토스/pintos_threads_lab - 복사본/pintos/threads/synch.c:159-184 | All of `sema_up`: the thread woken is ready or runs, a yield follows if and only if it outranks the caller, and afterwards it does not outrank whoever runs; if no ready thread outranked the caller before, none outranks the running thread afterwards. |
| KernelEffects.LockUpHasEffect | 핀토스/pintos_threads_lab - 복사본/pintos/threads/synch.c:320-320 | The same for the `sema_up` of `lock_release`; and no ready thread outranks the running one afterwards if and only if the thread woken outranked the caller or none outranked it before. |
| KernelEffects.DownHasEffect | 핀토스/pintos_threads_lab - 복사본/pintos/threads/synch.c:114-127 | A pass of `sema_down` takes one if there is one and moves nobody; otherwise the caller joins the waiters at the end, blocks, and a switch follows. |
| KernelEffects.AcquireHasEffect | 핀토스/pintos_threads_lab - 복사본/pintos/threads/synch.c:253-281 | `lock_acquire` of a held lock: the caller names the lock and becomes the last donor of its holder, exactly the threads reached along holders and the locks they wait for are raised to its priority where they were lower, then it waits and a switch follows. |
| KernelEffects.ChainIsReached | 핀토스/pintos_threads_lab - 복사본/pintos/threads/synch.c:268-278 | The threads the walk visits are exactly those on a path of holders that starts at the lock. |
| KernelEffects.ReleaseTops | 핀토스/pintos_threads_lab - 복사본/pintos/threads/synch.c:312-321 | After an uninterrupted `lock_release` no ready thread outranks the running one if and only if the thread woken outranked the caller or no ready thread outranked it: the call gives way to the thread it wakes and to no other. |
| KernelEffects.UpdateMoves | 핀토스/pintos_threads_lab - 복사본/pintos/threads/thread.c:338-351 | A ready thread whose priority changes leaves its place and joins the end of the new queue, no other thread moving; one that is not ready moves on no list. |
| KernelEffects.SetHasEffect | 핀토스/pintos_threads_lab - 복사본/pintos/threads/thread.c:322-334 | `thread_set_priority` changes the running thread only, and yields if and only if a ready thread outranks it then; none does afterwards. |
| KernelEffects.CreateHasEffect | 핀토스/pintos_threads_lab - 복사본/pintos/threads/thread.c:186-219 | The new thread joins the end of the queue of its priority, without donors, and gets the processor if and only if it outranks its maker. |
| KernelEffects.StopHasEffect | 핀토스/pintos_threads_lab - 복사본/pintos/threads/thread.c:228-302 | The thread is dying, or blocked if it is the idle one, and a switch follows. |
| KernelEffects.InsertedByTick | 핀토스/pintos_threads_lab - 복사본/pintos/devices/timer.c:34-41 | A thread going to sleep stands behind those that wake no later and before those that wake later, who keep their order. |
| KernelEffects.SleepHasEffect | 핀토스/pintos_threads_lab - 복사본/pintos/devices/timer.c:104-115 | `timer_sleep` for a positive time puts the caller there, blocked until now plus that time, and a switch follows; otherwise nothing happens. |
| KernelEffects.TickHasEffect | 핀토스/pintos_threads_lab - 복사본/pintos/devices/timer.c:143-157 | The sleepers due are the first of the list; exactly these become ready, each queue growing at its end by those of its priority in order; a yield follows if and only if one outranks the running thread or its time slice is used up. |
| KernelRuns.BootIsSafe | 핀토스/pintos_threads_lab - 복사본/pintos/threads/thread.c:98-140 | The state after start-up meets both invariants. |
| KernelRuns.Apply | 핀토스/pintos_threads_lab - 복사본/pintos/threads/synch.c:253-321 | Every step of the running thread or the timer leads from a sound state to a sound state, and keeps what donors are promised, but for an acquisition, which does so if and only if it disturbs no preempted thread. |
| KernelRuns.StepEffect | 핀토스/pintos_threads_lab - 복사본/pintos/threads/synch.c:114-321 | A step changes a semaphore by exactly its ups less its completed downs, moves time only by an interrupt, and wakes no sleeper otherwise. |
| KernelRuns.ValueIsConserved | 핀토스/pintos_threads_lab - 복사본/pintos/threads/synch.c:114-184 | After any run a semaphore has its old value plus the ups minus the completed downs, and is never negative. |
| KernelRuns.NeverWokenEarly | 핀토스/pintos_threads_lab - 복사본/pintos/devices/timer.c:104-157 | A sleeper is still asleep after any run that ends before its wakeup tick. |
| KernelRuns.WokenAtItsTick | 핀토스/pintos_threads_lab - 복사본/pintos/devices/timer.c:104-157 | In any run that reaches its wakeup tick, a sleeper wakes at exactly the interrupt that brings this tick. |
| KernelRuns.TimeNeverRunsBack | 핀토스/pintos_threads_lab - 복사본/pintos/devices/timer.c:143-157 | Time never runs back. |
| KernelRuns.EveryRunIsSafe | 핀토스/pintos_threads_lab - 복사본/pintos/threads/thread.c:228-351 | After any run from start-up, of any interleaving of all steps: one thread inside a lock at most, every priority at least its base (but inside `thread_set_priority`), ready threads on the queue of their priority, no sleeper overdue, each thread on one list at most and nobody forgotten, and no wakeup lost. |
| KernelRuns.EveryDonorIsCovered | 핀토스/pintos_threads_lab - 복사본/pintos/threads/synch.c:253-321 | After any run from start-up in which no acquisition disturbs a preempted thread, every donor waits for a lock that the other thread holds, and that thread runs no lower. |
| KernelRuns.CalmRunKeeps | 핀토스/pintos_threads_lab - 복사본/pintos/threads/synch.c:253-321 | Such a run leads from any state that meets both invariants to another. |
| KernelAftermath.StepStands | 핀토스/pintos_threads_lab - 복사본/pintos/threads/synch.c:114-321 | No step of others moves a thread on, lowers it, takes a donor from it, or wakes it while it waits for a lock that is not given back. |
| KernelAftermath.DisturbanceLeaves | 핀토스/pintos_threads_lab - 복사본/pintos/threads/synch.c:253-281 | A disturbing acquisition leaves a thread about to assign itself a priority below that of a waiting donor, or one about to give up the lock that a donor waits for. |
| KernelAftermath.OvertakenStep | 핀토스/pintos_threads_lab - 복사본/pintos/threads/thread.c:322-334 | No step of others helps the first: it stays so until its own next step, which leaves it below its donor. |
| KernelAftermath.OvertakenToTheEnd | 핀토스/pintos_threads_lab - 복사본/pintos/threads/thread.c:322-334 | On every run it stays so to the end or comes to run below its donor. |
| KernelAftermath.AwaitedStep | 핀토스/pintos_threads_lab - 복사본/pintos/threads/synch.c:312-319 | No step of others, nor its own sorting and refreshing, helps the second: it stays so until it clears the holder, and then keeps the donor for a lock without a holder. |
| KernelAftermath.AwaitedToTheEnd | 핀토스/pintos_threads_lab - 복사본/pintos/threads/synch.c:312-319 | On every run it stays so to the end or comes to keep that donor. |
| KernelAftermath.DisturbanceTells | 핀토스/pintos_threads_lab - 복사본/pintos/threads/synch.c:253-321 | So nothing puts a disturbance right: on every run that follows, the disturbed thread stays about to act or breaks the rule for donors. |
| KernelScenarios.SetPriorityRun | 핀토스/pintos_threads_lab - 복사본/pintos/threads/thread.c:322-334 | The steps of `thread_set_priority` in a row, after any run, set base priority and priority, when there is no donor or the new priority is higher. |
| KernelScenarios.ReleaseRun | 핀토스/pintos_threads_lab - 복사본/pintos/threads/synch.c:312-319 | The steps of `lock_release` in a row, after any run, lead to the state of the uninterrupted call. |
| KernelScenarios.WaitsForHolder | 핀토스/pintos_threads_lab - 복사본/pintos/threads/synch.c:253-281 | Acquiring a lock whose holder waits for nothing registers, raises the holder, blocks, and switches. |
| KernelScenarios.DisturbsHolder | 핀토스/pintos_threads_lab - 복사본/pintos/threads/synch.c:253-281 | It disturbs the holder if and only if that is about to give this lock up or to assign itself a lower priority. |
| KernelFindings.ReleaseExposesNull | 핀토스/pintos_threads_lab - 복사본/pintos/threads/synch.c:312-321 | When a thread releases a lock with a waiter that holds another lock, keeps the processor and acquires that other lock, its walk meets the released lock, which has no holder yet. |
| KernelFindings.WalkCanMeetNull | 핀토스/pintos_threads_lab - 복사본/pintos/threads/synch.c:268-278 | A run from start-up after which a thread calls `lock_acquire` and its walk reads the priority of a NULL holder. |
| KernelFindings.UnjustifiedPriority | 핀토스/pintos_threads_lab - 복사본/pintos/threads/thread.c:322-334 | A run from start-up after which a thread, back from `thread_set_priority`, has a priority that neither base nor donor justifies. |
| KernelFindings.WitnessIsReached | 핀토스/pintos_threads_lab - 복사본/pintos/threads/synch.c:253-284 | A run from start-up to the state with two threads and two locks that both findings start from. |
| KernelFindings.SetPriorityCanUndercut | 핀토스/pintos_threads_lab - 복사본/pintos/threads/thread.c:322-334 | A run from start-up, with a tick inside `thread_set_priority` that lets another thread register, after which a thread runs below a donor that waits for a lock it holds. |
| KernelFindings.ReleaseCanKeepDonor | 핀토스/pintos_threads_lab - 복사본/pintos/threads/synch.c:312-319 | A run from start-up, with a tick inside `lock_release` that lets another thread register, after which a thread keeps a donor for a lock that nobody holds. |
| KernelFindings.ReleaseCanLeaveOutranked | 핀토스/pintos_threads_lab - 복사본/pintos/threads/synch.c:312-321 | A run from start-up in which nobody is preempted, after which a thread at 30, back from releasing a lock without waiters, runs while one of priority 31 is ready, though none outranked it before. |
| Kernel.Machine.constructor | 핀토스/pintos_threads_lab - 복사본/pintos/threads/thread.c:98-140 | Start-up leads to a state that meets both invariants. |
| Kernel.Machine.NextThreadToRun | 핀토스/pintos_threads_lab - 복사본/pintos/threads/thread.c:459-468 | The loop over the queues returns the thread that NextIsHighest speaks of, and takes it off its queue only. |
| Kernel.Machine.Schedule | 핀토스/pintos_threads_lab - 복사본/pintos/threads/thread.c:598-633 | Performs the thread switch of DispatchKeeps. |
| Kernel.Machine.ThreadUnblock | 핀토스/pintos_threads_lab - 복사본/pintos/threads/thread.c:244-255 | The thread is ready and last in the queue of its priority; no other list or thread changes. |
| Kernel.Machine.ThreadYield | 핀토스/pintos_threads_lab - 복사본/pintos/threads/thread.c:307-318 | Sound before and after; the running thread goes to the end of its queue, the switch of SwitchDoes follows, and no ready thread outranks the running one. |
| Kernel.Machine.ThreadStop | 핀토스/pintos_threads_lab - 복사본/pintos/threads/thread.c:290-302 | Sound before and after; the running thread is dying, and no ready thread outranks the one that runs instead. |
| Kernel.Machine.ThreadUpdatePriority | 핀토스/pintos_threads_lab - 복사본/pintos/threads/thread.c:338-351 | Performs the change of UpdateKeeps: a ready thread moves to the end of the queue of its new priority. |
| Kernel.Machine.SetBasePriority | 핀토스/pintos_threads_lab - 복사본/pintos/threads/thread.c:325-325 | Sound before and after; performs step 1 of `thread_set_priority`. |
| Kernel.Machine.DecidePriority | 핀토스/pintos_threads_lab - 복사본/pintos/threads/thread.c:327-329 | Sound before and after; tells whether the new priority is to be assigned. |
| Kernel.Machine.AssignPriority | 핀토스/pintos_threads_lab - 복사본/pintos/threads/thread.c:328-330 | Sound before and after; the running thread gets the priority decided on before. |
| Kernel.Machine.ThreadSetPriority | 핀토스/pintos_threads_lab - 복사본/pintos/threads/thread.c:322-334 | Sound before and after, for a call that nothing preempts: base priority and priority are set, no other thread changes, it yields if and only if a ready thread then outranks it, and none outranks the running thread afterwards. |
| Kernel.Machine.ThreadCreate | 핀토스/pintos_threads_lab - 복사본/pintos/threads/thread.c:186-219 | Sound before and after; the new thread is ready, last in the queue of its priority, or runs if it outranks its maker; nobody outranks the running thread afterwards if nobody did before. |
| Kernel.Machine.SemaDown | 핀토스/pintos_threads_lab - 복사본/pintos/threads/synch.c:114-127 | Sound before and after; done exactly when the value was positive, which then falls by one while no list changes; otherwise the thread is last of the waiters, and one that no ready thread outranks runs. |
| Kernel.Machine.SemaTryDown | 핀토스/pintos_threads_lab - 복사본/pintos/threads/synch.c:135-152 | Succeeds exactly when the value is positive, which then falls by one; never waits, moves nobody, and changes nothing on failure. |
| Kernel.Machine.UpCore | 핀토스/pintos_threads_lab - 복사본/pintos/threads/synch.c:159-177 | Exactly the earliest waiter of greatest priority leaves the waiters, is ready at the end of its queue, and is the thread returned; the value is one greater. |
| Kernel.Machine.SemaUp | 핀토스/pintos_threads_lab - 복사본/pintos/threads/synch.c:159-184 | Sound before and after; the earliest waiter of greatest priority, and nobody else, has left the waiters and is ready or running; the value is one greater; the caller yields if and only if that thread outranks it, and it does not outrank whoever runs then. |
| Kernel.Machine.LockAcquire | 핀토스/pintos_threads_lab - 복사본/pintos/threads/synch.c:253-278 | Faults if and only if the walk reads the priority of a NULL holder; otherwise sound afterwards, and what donors are promised is kept if and only if no preempted thread is disturbed; done exactly when the semaphore was positive. For a held lock the caller becomes the last donor of the holder, exactly the threads reached along holders are raised, the caller waits, and no ready thread outranks the one that runs. |
| Kernel.Machine.Walk | 핀토스/pintos_threads_lab - 복사본/pintos/threads/synch.c:268-278 | The while loop raises exactly the threads of the chain, and faults if and only if it comes to a lock without a holder. |
| Kernel.Machine.LockTryAcquire | 핀토스/pintos_threads_lab - 복사본/pintos/threads/synch.c:293-303 | Takes the lock exactly when it is free, and changes nothing otherwise. |
| Kernel.Machine.RemoveDonationByLock | 핀토스/pintos_threads_lab - 복사본/pintos/threads/synch.c:64-76 | The loop keeps exactly the donors that do not wait for the lock, in order. |
| Kernel.Machine.DropDonations | 핀토스/pintos_threads_lab - 복사본/pintos/threads/synch.c:316-316 | Sound before and after; exactly the donors that do not wait for the lock stay, in order. |
| Kernel.Machine.ComputePriority | 핀토스/pintos_threads_lab - 복사본/pintos/threads/synch.c:79-90 | Sound before and after; the donors get sorted, and the priority to assign is that of RefreshedCovers. |
| Kernel.Machine.ClearHolder | 핀토스/pintos_threads_lab - 복사본/pintos/threads/synch.c:319-319 | Sound before and after; the lock has no holder. |
| Kernel.Machine.LockRelease | 핀토스/pintos_threads_lab - 복사본/pintos/threads/synch.c:312-319 | Sound before and after, for a call that nothing preempts up to its `sema_up`: the four steps in a row. |
| Kernel.Machine.LockReleaseUp | 핀토스/pintos_threads_lab - 복사본/pintos/threads/synch.c:320-320 | Sound before and after; the earliest waiter of greatest priority, and nobody else, has left the waiters and is ready or running, with a yield if and only if it outranks the caller. |
| Kernel.Machine.TimerSleep | 핀토스/pintos_threads_lab - 복사본/pintos/devices/timer.c:104-115 | Sound before and after; the caller sleeps until now plus the ticks, in order in the sleep list, and one that no ready thread outranks runs; nothing changes when the ticks are not positive. |
| Kernel.Machine.TimerInterrupt | 핀토스/pintos_threads_lab - 복사본/pintos/devices/timer.c:143-157 | Sound before and after; time advances by one, exactly the sleepers due are ready, in order in their queues, and the running thread yields if and only if one of them outranks it or its time slice is used up. |
| PageTables.IndexBits | 핀토스/pintos_threads_lab - 복사본/pintos/threads/mmu.c:12-89 | The index at each level is the 9-bit field at bits 39, 30, 21 and 12 of the address. |
| PageTables.EntryFacts | 핀토스/pintos_threads_lab - 복사본/pintos/threads/mmu.c:241-243 | The entry written is present, for user mode, writable as asked, neither accessed nor dirty, and leads back to the frame. |
| PageTables.PlaceUnique | 핀토스/pintos_threads_lab - 복사본/pintos/threads/mmu.c:12-89 | In a well-formed tree no two pages stand at the same place. |
| PageTables.PathIsUnique | 핀토스/pintos_threads_lab - 복사본/pintos/threads/mmu.c:12-89 | A walk may start at any table on the way to a page: it ends at the entry that the walk from the root finds. |
| PageTables.GrowOk | 핀토스/pintos_threads_lab - 복사본/pintos/threads/mmu.c:12-89 | Hanging in a zeroed page keeps the tree well formed. |
| PageTables.GrowTranslates | 핀토스/pintos_threads_lab - 복사본/pintos/threads/mmu.c:12-89 | A new empty table changes no translation. |
| PageTables.WriteTranslates | 핀토스/pintos_threads_lab - 복사본/pintos/threads/mmu.c:232-263 | Writing the entry of one page changes the translation of this page and of no other. |
| PageTables.PathStays | 핀토스/pintos_threads_lab - 복사본/pintos/threads/mmu.c:232-263 | When only tables of the lowest level change, every table on the way to a page still leads to the entry that the root leads to. |
| PageTables.LowestDecides | 핀토스/pintos_threads_lab - 복사본/pintos/threads/mmu.c:12-89 | Every entry above the lowest level is writable and for user mode, so what a user program may do with a page is what its entry at the lowest level says. |
| PageTables.OtherFlagKept | 핀토스/pintos_threads_lab - 복사본/pintos/threads/mmu.c:277-315 | Setting or clearing one of the accessed and dirty bits leaves the other. |
| PageTables.ClearNarrowKeeps | 핀토스/pintos_threads_lab - 복사본/pintos/threads/mmu.c:277-310 | Clearing a flag with the complement of a 32-bit constant keeps the mapping if and only if the frame lies below 4 GiB. |
| Mmu.Machine.Pml4eWalk | 핀토스/pintos_threads_lab - 복사본/pintos/threads/mmu.c:65-89 | Finds the slot of the entry for the address; with `create` it adds exactly the missing tables, or fails when too few pages are free, having given back what it took and changed nothing. |
| Mmu.Machine.PdpeWalk | 핀토스/pintos_threads_lab - 복사본/pintos/threads/mmu.c:32-56 | The same from a page directory pointer table. |
| Mmu.Machine.PgdirWalk | 핀토스/pintos_threads_lab - 복사본/pintos/threads/mmu.c:12-29 | The same from a page directory. |
| Mmu.WalkThrough | 핀토스/pintos_threads_lab - 복사본/pintos/threads/mmu.c:12-89 | A walk from a child table, there already or just added, completes the walk from its parent. |
| Mmu.StoreGrants | 핀토스/pintos_threads_lab - 복사본/pintos/threads/mmu.c:232-244 | Once the new entry is stored, the processor lets a user program read the page, and write it if and only if that was asked. |
| Mmu.Machine.constructor | 핀토스/pintos_threads_lab - 복사본/pintos/threads/mmu.c:95-101 | A base table without entries is a well-formed tree that maps nothing. |
| Mmu.Machine.Pml4GetPage | 핀토스/pintos_threads_lab - 복사본/pintos/threads/mmu.c:213-222 | Returns the translation plus the offset, and NULL exactly when the page is not mapped. |
| Mmu.Machine.Pml4SetPage | 핀토스/pintos_threads_lab - 복사본/pintos/threads/mmu.c:232-244 | On success the page maps to the frame, its entry has exactly the bits asked for and neither the accessed nor the dirty bit, the rights along the whole walk let a user program read it, and write it if and only if that was asked; no other page changes, whatever the frame. It fails exactly when fewer pages are free than tables are missing, and then nothing changes; the pages form a tree again if the frame is allocated and stands nowhere else in it. |
| Mmu.Machine.Pml4ClearPage | 핀토스/pintos_threads_lab - 복사본/pintos/threads/mmu.c:250-263 | Exactly this page stops being mapped, and no user program can reach it; the other bits of its entry stay. |
| Mmu.Machine.Pml4IsDirty | 핀토스/pintos_threads_lab - 복사본/pintos/threads/mmu.c:269-273 | Reports the bit of the entry, false when there is none. |
| Mmu.Machine.Pml4SetDirty | 핀토스/pintos_threads_lab - 복사본/pintos/threads/mmu.c:277-289 | The bit is as asked, and no other page changes; this one keeps its mapping if and only if the bit is set or the frame lies below 4 GiB. The accessed bit stays. |
| Mmu.Machine.Pml4SetAccessed | 핀토스/pintos_threads_lab - 복사본/pintos/threads/mmu.c:303-315 | The same for the accessed bit; the dirty bit stays. |
| MmuForEach.VisitsAreTheMapping | 핀토스/pintos_threads_lab - 복사본/pintos/threads/mmu.c:103-156 | The calls of the iteration are for exactly the mapped pages of the address space, each once, in ascending order, each with the entry that the walk finds. |
| MmuForEach.Pml4ForEach | 핀토스/pintos_threads_lab - 복사본/pintos/threads/mmu.c:146-156 | Makes these calls up to the first that answers false, and returns true exactly when none does. |
| MmuDestroy.BranchIsPresent | 핀토스/pintos_threads_lab - 복사본/pintos/threads/mmu.c:158-186 | Pages below an entry exist only when the entry is present. |
| MmuDestroy.Pml4Destroy | 핀토스/pintos_threads_lab - 복사본/pintos/threads/mmu.c:189-200 | Frees the root, every private table and every frame present in the private part, each exactly once, and no page of the kernel. The frames are given back in the order of their pages. |
| MmuProcesses.Pml4Create | 핀토스/pintos_threads_lab - 복사본/pintos/threads/mmu.c:95-101 | A new address space translates as the kernel tables do and maps no private page; NULL exactly when no page is free. |
| MmuProcesses.FreedFrames | 핀토스/pintos_threads_lab - 복사본/pintos/threads/mmu.c:158-200 | The frames freed are exactly those that private pages are mapped to. |
| MmuProcesses.FramesAreDistinct | 핀토스/pintos_threads_lab - 복사본/pintos/threads/mmu.c:232-244 | No frame is mapped at two private pages, so none is freed twice. |
| MmuProcesses.FreedOnceIffInjective | 핀토스/pintos_threads_lab - 복사본/pintos/threads/mmu.c:158-200 | Over any memory, the loops of `pml4_destroy` come to each frame once if and only if no two private pages are mapped to one frame. |
| MmuProcesses.MappedTwiceIsFreedTwice | 핀토스/pintos_threads_lab - 복사본/pintos/threads/mmu.c:232-244 | After one private page has been mapped to the frame of another, `pml4_destroy` gives that frame back twice. |
| MmuProcesses.FrameFreedTwice | 핀토스/pintos_threads_lab - 복사본/pintos/threads/mmu.c:158-200 | A memory for which it does. |
| MmuProcesses.PrivateIsBelow512G | 핀토스/pintos_threads_lab - 복사본/pintos/threads/mmu.c:195-198 | A user address belongs to the part that is private and freed if and only if it lies below 2^39; user addresses above share entry 1 of the root with the kernel. |
| MmuProcesses.OthersAreSafe | 핀토스/pintos_threads_lab - 복사본/pintos/threads/mmu.c:232-263 | Changes on the way to a private page of one process leave every translation of another. |
| MmuProcesses.DestroyLeavesOthers | 핀토스/pintos_threads_lab - 복사본/pintos/threads/mmu.c:158-200 | Destroying one process leaves every translation of another that shares at most the tables of the kernel with it, and all pages of its tree. |
| MmuProcesses.HighPagesAreShared | 핀토스/pintos_threads_lab - 복사본/pintos/threads/mmu.c:95-101 | What one process writes for a user page that is not private, every process translates by whose root agrees with its root on the entries from 1 up. |
| ArenaState.LiveApart | 핀토스/pintos_threads_lab - 복사본/pintos/threads/malloc.c:85-144 | Two live blocks share no byte. |
| ArenaState.HeadersApart | 핀토스/pintos_threads_lab - 복사본/pintos/threads/malloc.c:244-268 | No live block overlaps the header of an arena. |
| ArenaState.FreeIffUnused | 핀토스/pintos_threads_lab - 복사본/pintos/threads/malloc.c:85-240 | Every page of the pool is free if and only if it lies in the span of no arena that holds a live block: no page is lost. |
| ArenaState.SomeLive | 핀토스/pintos_threads_lab - 복사본/pintos/threads/malloc.c:222-231 | Every arena kept between calls holds a live block. |
| ArenaState.NothingLive | 핀토스/pintos_threads_lab - 복사본/pintos/threads/malloc.c:202-240 | When nothing is live, all pages of the pool are free again and no arena is left. |
| ArenaSteps.NewArenaKeeps | 핀토스/pintos_threads_lab - 복사본/pintos/threads/malloc.c:117-136 | A new arena with all its blocks on the free list keeps the accounting, and no block becomes live. |
| ArenaSteps.TakeKeeps | 핀토스/pintos_threads_lab - 복사본/pintos/threads/malloc.c:138-143 | Handing out the first free block keeps the exact counts and makes exactly this block live. |
| ArenaSteps.GiveKeeps | 핀토스/pintos_threads_lab - 복사본/pintos/threads/malloc.c:218-225 | Giving a block back keeps the exact counts; the count cannot pass the number of blocks, so the assertion in `free` holds. |
| ArenaSteps.LastComesBack | 핀토스/pintos_threads_lab - 복사본/pintos/threads/malloc.c:222-223 | The count reaches the number of blocks exactly when the last live block of the arena comes back. |
| ArenaSteps.DropKeeps | 핀토스/pintos_threads_lab - 복사본/pintos/threads/malloc.c:222-231 | An arena whose blocks are all free can be dropped without losing a live block. |
| ArenaMalloc.PageCountIsEnough | 핀토스/pintos_threads_lab - 복사본/pintos/threads/malloc.c:99-112 | The number of pages computed for a big block covers it if and only if the sum in size_t does not wrap around. |
| ArenaMalloc.DescFits | 핀토스/pintos_threads_lab - 복사본/pintos/threads/malloc.c:94-112 | The descriptor or the number of pages chosen wastes no more than it must: a block of less than twice the size for small requests, no page too many for big ones. |
| ArenaMalloc.GivenBackServes | 핀토스/pintos_threads_lab - 복사본/pintos/threads/malloc.c:202-240 | Once the last block of an arena has been given back, a request for no more pages than the arena had cannot fail. |
| ArenaMalloc.Kernel.PallocGetMultiple | 핀토스/pintos_threads_lab - 복사본/pintos/threads/malloc.c:100-105 | A run of free pages, or none when there is no such run. |
| ArenaMalloc.Kernel.DescFor | 핀토스/pintos_threads_lab - 복사본/pintos/threads/malloc.c:94-99 | The first descriptor whose blocks are large enough, or none. |
| ArenaMalloc.Kernel.Malloc | 핀토스/pintos_threads_lab - 복사본/pintos/threads/malloc.c:85-144 | NULL exactly for no bytes or no room, and then nothing changes; otherwise an aligned block that was not live, of at least the size and no larger than its descriptor or page count demands; it is the first of its free list, or of a new arena of exactly the pages needed; all counts exact, no page lost, and no wholly free arena kept. |
| ArenaMalloc.Kernel.Free | 핀토스/pintos_threads_lab - 복사본/pintos/threads/malloc.c:202-240 | Exactly this block stops being live and all others keep their sizes; the free pages grow by exactly the pages of the block if it is big, by the page of its arena if it was the last there, and else by none; otherwise it is first on its free list. Its bytes are cleared if it is small, and no other byte changes. |
| ArenaMalloc.Kernel.RemoveBlocks | 핀토스/pintos_threads_lab - 복사본/pintos/threads/malloc.c:226-229 | The loop takes every block of the arena off the free list and nothing else. |
| ArenaMalloc.Kernel.Realloc | 핀토스/pintos_threads_lab - 복사본/pintos/threads/malloc.c:183-197 | The new block holds the old bytes as far as both reach, all other live blocks keep theirs, the old block is no longer live; for a positive size NULL comes, with nothing changed, if and only if there is no free block of its descriptor and no page, or no run of pages. The new block is no larger than demanded, and the others keep their sizes. |
| BstPreorder.RebuiltIsInverse | week4/problem-solving/난이도중_트리_이진검색트리_골드4.py:99-113 | Every search tree with distinct keys is rebuilt from its preorder. |
| BstPreorder.PreorderOfRebuilt | week4/problem-solving/난이도중_트리_이진검색트리_골드4.py:99-113 | The tree rebuilt from any sequence has this sequence as its preorder. |
| BstPreorder.RebuiltIsBst | week4/problem-solving/난이도중_트리_이진검색트리_골드4.py:99-113 | The rebuilt tree is a search tree if and only if the sequence is the preorder of one. |
| BstPreorder.RebuiltStep | week4/problem-solving/난이도중_트리_이진검색트리_골드4.py:102-113 | Appending an element to the sequence attaches it on the open right border of the tree. |
| BstPreorder.SpineStep | week4/problem-solving/난이도중_트리_이진검색트리_골드4.py:105-113 | The stack after a step is what the new element does not exceed, and the element. |
| BstPreorder.LinkStep | week4/problem-solving/난이도중_트리_이진검색트리_골드4.py:105-112 | Linking the new element where the stack says turns the nodes into the new tree. |
| BstPreorder.SpineFalls | week4/problem-solving/난이도중_트리_이진검색트리_골드4.py:110-111 | Values on the stack never rise towards the top. |
| BstBuilder.Build | week4/problem-solving/난이도중_트리_이진검색트리_골드4.py:99-113 | The loop links exactly the nodes of the rebuilt tree; it fails exactly for no numbers or two adjacent equal ones. |
| BstBuilder.Pop | week4/problem-solving/난이도중_트리_이진검색트리_골드4.py:110-111 | Pops exactly the top values less than the element and remembers the last. |
| BstBuilder.PostorderOf | week4/problem-solving/난이도중_트리_이진검색트리_골드4.py:115-124 | Returns the postorder of the tree that the linked nodes represent. |
| BstBuilder.Run | week4/problem-solving/난이도중_트리_이진검색트리_골드4.py:92-129 | For the preorder of any non-empty search tree the program prints the postorder of that tree; it fails exactly for no numbers or two adjacent equal ones. |
| PostorderStack.PostOrderIterativeS1 | C언어/data_structures_docker/Data-Structures/Binary_Search_Tree/Q4_F_BST.c:91-121 | One stack and the node printed last suffice: the output is the recursive postorder, for every tree in which no node is reached twice. |
| PostorderStack.LastTells | C언어/data_structures_docker/Data-Structures/Binary_Search_Tree/Q4_F_BST.c:109-119 | The right child was printed last exactly when the right subtree is done, because nodes are compared by identity. |
| PostorderStack.GoLeft | C언어/data_structures_docker/Data-Structures/Binary_Search_Tree/Q4_F_BST.c:102-106 | Descending to the left keeps the order of what is still to come, with less work left. |
| PostorderStack.GoRight | C언어/data_structures_docker/Data-Structures/Binary_Search_Tree/Q4_F_BST.c:110-113 | Turning to the right keeps the order of what is still to come, with less work left. |
| PostorderStack.GoUp | C언어/data_structures_docker/Data-Structures/Binary_Search_Tree/Q4_F_BST.c:114-118 | Printing and popping deliver the next node in postorder. |
| MazeBfs.ShortestWay | week4/problem-solving/난이도중_BFS_미로탐색_실버1.py:22-42 | The number printed is the number of cells of a shortest open path to the last cell; nothing is printed exactly when there is no path. |
| MazeBfs.PathMeetsQueue | week4/problem-solving/난이도중_BFS_미로탐색_실버1.py:26-42 | Every path from the start ends in a cell reached in time, or passes through a queued cell that was. |
| MazeBfs.GoalIsNearest | week4/problem-solving/난이도중_BFS_미로탐색_실버1.py:28-30 | When the goal comes to the front, no path is shorter than its count says. |
| MazeBfs.GoalOutOfReach | week4/problem-solving/난이도중_BFS_미로탐색_실버1.py:26-42 | When the queue is empty, no path leads to the goal. |
| MazeBfs.Visit | week4/problem-solving/난이도중_BFS_미로탐색_실버1.py:31-42 | Queueing an unvisited open neighbour keeps the queue in order of distance and every distance attained. |
| MazeBfs.Expand | week4/problem-solving/난이도중_BFS_미로탐색_실버1.py:31-42 | The four tests leave no open neighbour of the cell unvisited. |
| TopologicalSort.TopologicalSort | week4/basic/06_topological_sort.py:43-78 | A list is returned exactly when the multigraph is acyclic; it is a permutation of the vertices with every edge pointing forward. In any case the vertices processed are distinct, each after all its predecessors, every vertex left out has a predecessor left out, and if some are left out there is a cycle among them. |
| TopologicalSort.OrderMeansAcyclic | week4/basic/06_topological_sort.py:75-78 | A graph with such an order has no cycle. |
| TopologicalSort.FindCycle | week4/basic/06_topological_sort.py:75-76 | Where every vertex of a finite set has a predecessor in it, a walk backwards closes a cycle in it. |
| TopologicalSort.FinishOrder | week4/basic/06_topological_sort.py:67-78 | When all vertices are processed, their list is an order. |
| TopologicalSort.FinishCycle | week4/basic/06_topological_sort.py:67-76 | When the queue is empty early, a cycle lies among the vertices left. |
| TopologicalSort.BuildGraph | week4/basic/06_topological_sort.py:43-52 | Neighbours and in-degrees are those of the edge list, repeated edges included. |
| TopologicalSort.Relax | week4/basic/06_topological_sort.py:70-73 | Lowering the degrees of the neighbours queues exactly those whose predecessors are all processed. |
| LostParentheses.LeastValue | week5/problem-solving/난이도하_그리디_잃어버린괄호_실버2.py:6-27 | The value printed is the value of some full parenthesisation, and none has a smaller one. |
| LostParentheses.NoneGivesLess | week5/problem-solving/난이도하_그리디_잃어버린괄호_실버2.py:6-27 | No full parenthesisation is worth less than the numbers before the first minus less all the others, nor more than the sum of all. |
| LostParentheses.LeastIsReached | week5/problem-solving/난이도하_그리디_잃어버린괄호_실버2.py:18-26 | Some parenthesisation of the same numbers and signs attains the lower bound. |
| LostParentheses.PiecesOfText | week5/problem-solving/난이도하_그리디_잃어버린괄호_실버2.py:6-27 | The first piece between minus signs of the text adds up to the numbers before the first minus, and all pieces to the sum. |
| LostParentheses.AddUp | week5/problem-solving/난이도하_그리디_잃어버린괄호_실버2.py:10-25 | The loop adds up the numbers of a piece, whether or not it holds a plus. |
| LostParentheses.ParseOfDecimal | week5/problem-solving/난이도하_그리디_잃어버린괄호_실버2.py:13-25 | Reading the decimal digits of a number gives the number. |
| LostParentheses.DecimalOfParse | week5/problem-solving/난이도하_그리디_잃어버린괄호_실버2.py:13-25 | A numeral without leading zeros is the decimal writing of what is read from it. |
| LostParentheses.ParseConcat | week5/problem-solving/난이도하_그리디_잃어버린괄호_실버2.py:13-25 | Digits count by their position: a numeral followed by another is read as the first, shifted, plus the second. |
| LostParentheses.SplitJoins | week5/problem-solving/난이도하_그리디_잃어버린괄호_실버2.py:6-12 | Joining the pieces with the sign they were split at gives back the text, and no piece contains it. |
| MeetingRooms.Assign | week5/problem-solving/난이도중_그리디_회의실배정_골드5.py:11-19 | The count printed is attained by some selection of meetings one room can hold, and no such selection is larger. |
| MeetingRooms.Step | week5/problem-solving/난이도중_그리디_회의실배정_골드5.py:14-18 | One pass keeps: as many meetings as possible, and of all such selections the earliest possible end. |
| MeetingRooms.MoveToEnd | week5/problem-solving/난이도중_그리디_회의실배정_골드5.py:11-18 | A selection using the last meeting of the sorted list can be rearranged to end with it, meetings of no length included. |
| MeetingRooms.SortIsSorted | week5/problem-solving/난이도중_그리디_회의실배정_골드5.py:11-11 | The sort by end and then start is a sorted permutation. |
| ProxyCache.Cache.constructor | C언어/webproxy_lab_docker/webproxy-lab/proxy.c:233-244 | An empty cache with an empty history. |
| ProxyCache.Cache.Find | C언어/webproxy_lab_docker/webproxy-lab/proxy.c:246-262 | Hits exactly when the URI is among the ten distinct URIs touched most recently, and then returns the bytes last inserted for it and counts as a touch; a miss changes nothing. |
| ProxyCache.Cache.Insert | C언어/webproxy_lab_docker/webproxy-lab/proxy.c:264-296 | An object within the size limit becomes the most recent touch, a larger one changes nothing. |
| ProxyCache.HeldAfter | C언어/webproxy_lab_docker/webproxy-lab/proxy.c:246-296 | A touch moves its URI to the front; a new one pushes out the last when ten are held. |
| ProxyCache.TouchOrdered | C언어/webproxy_lab_docker/webproxy-lab/proxy.c:246-296 | Writing a slot with the next stamp keeps valid slots a prefix with distinct stamps, ordered by recency. |
| ProxyCache.TouchRefines | C언어/webproxy_lab_docker/webproxy-lab/proxy.c:246-296 | The slots in order of stamps are then the URIs of the longer history in order of recency, with their last bytes. |
| ProxyCache.InsertPosition | C언어/webproxy_lab_docker/webproxy-lab/proxy.c:275-287 | The slot that an insertion picks holds the URI, or is the first free one, or has the earliest stamp. |
| InodeIo.FileSystem.InodeReadAt | 핀토스/pintos_threads_lab - 복사본/pintos/filesys/inode.c:183-226 | Delivers exactly the bytes of the flat extent from the offset on, exactly as many as request, end of file and buffer memory allow, and leaves the rest of the caller buffer. |
| InodeIo.FileSystem.InodeWriteAt | 핀토스/pintos_threads_lab - 복사본/pintos/filesys/inode.c:234-288 | Replaces exactly the bytes from the offset on and nothing else of the extent or disk, exactly as many as request, end of file and buffer memory allow, none when writes are denied. |
| InodeIo.TransferStep | 핀토스/pintos_threads_lab - 복사본/pintos/filesys/inode.c:188-224 | Chunks add up to the whole transfer; one that is not a whole sector needs the bounce buffer. |
| InodeIo.ChunkReplaces | 핀토스/pintos_threads_lab - 복사본/pintos/filesys/inode.c:241-280 | Patching one sector replaces exactly the bytes of the chunk in the flat view. |
| InodeIo.ReadsWhatWasWritten | 핀토스/pintos_threads_lab - 복사본/pintos/filesys/inode.c:183-288 | After a write, reading the range gives the bytes written, and reading outside it the old ones. |
| InodeTable.Table.InodeOpen | 핀토스/pintos_threads_lab - 복사본/pintos/filesys/inode.c:103-130 | A sector that is open yields the same inode again, whose marks stay; a new inode is not removed, denies no writes and has one opener; one opener more; NULL only without memory, and then nothing changes. |
| InodeTable.Table.InodeClose | 핀토스/pintos_threads_lab - 복사본/pintos/filesys/inode.c:150-169 | One opener less, and no mark of any inode changes; the last one takes the inode off the list and, if it was removed, gives back exactly its sectors; otherwise every file and sector stays. |
| InodeTable.Table.InodeRemove | 핀토스/pintos_threads_lab - 복사본/pintos/filesys/inode.c:174-177 | Marks the inode, and changes nothing else. |
| InodeTable.OneInode | 핀토스/pintos_threads_lab - 복사본/pintos/filesys/inode.c:103-130 | No two open inodes have the same sector. |
| InodeHistory.FilesAfter | 핀토스/pintos_threads_lab - 복사본/pintos/filesys/inode.c:160-165 | Giving back the sectors of one file leaves those of every other file allocated. |
| InodeHistory.AfterKeeps | 핀토스/pintos_threads_lab - 복사본/pintos/filesys/inode.c:103-177 | Every open, close and removal keeps: files occupy sectors in use, each its own, and only open ones are marked. |
| InodeHistory.GoneIffRemovedAndClosed | 핀토스/pintos_threads_lab - 복사본/pintos/filesys/inode.c:103-177 | After any run of opens, closes and removals, a file is gone if and only if it has been removed, before or on the way, and as many have closed it as had opened it; one that is still there has its data and is open to exactly those left. |
| InodeHistory.NotRemovedStays | 핀토스/pintos_threads_lab - 복사본/pintos/filesys/inode.c:150-177 | A file that nobody removes keeps its data and its sectors, however often it is opened and closed. |
| InodeHistory.NeverBack | 핀토스/pintos_threads_lab - 복사본/pintos/filesys/inode.c:103-177 | Nobody calls on a file that is gone, and nothing brings it back. |
| InodeHistory.SectorsGivenBack | 핀토스/pintos_threads_lab - 복사본/pintos/filesys/inode.c:150-169 | The sectors in use after a run are those in use before, without those of the files that have gone. |
| BufferedReader.Rio.constructor | C언어/webproxy_lab_docker/webproxy-lab/csapp.c:837-842 | A new reader sees exactly the stream of its descriptor. |
| BufferedReader.Rio.RioRead | C언어/webproxy_lab_docker/webproxy-lab/csapp.c:805-830 | Delivers at least one of the next bytes when there is one, never more than asked; at an end or failure nothing is delivered and that mark is consumed. |
| BufferedReader.Rio.RioReadnb | C언어/webproxy_lab_docker/webproxy-lab/csapp.c:849-865 | Delivers the first n bytes of the stream, or all before an end, and reports -1 for a failure; what it leaves and reports depends on the stream only, not on how read cut it. |
| BufferedReader.Rio.RioReadlineb | C언어/webproxy_lab_docker/webproxy-lab/csapp.c:871-894 | Delivers the bytes up to the first newline, at most maxlen - 1, with a zero after them; reports 0 without a zero for an end before any byte, -1 for a failure. |
| BufferedReader.ReadInTwo | C언어/webproxy_lab_docker/webproxy-lab/csapp.c:855-863 | Reading m + n bytes is reading m and then n. |
| BufferedReader.CutIsInvisible | C언어/webproxy_lab_docker/webproxy-lab/csapp.c:809-820 | Two descriptors that differ in where the bytes are cut show the same stream. |
| BufferedReader.InterruptionIsInvisible | C언어/webproxy_lab_docker/webproxy-lab/csapp.c:812-815 | An interrupted read does not show in the stream. |

## Left out

- SegHeap.Allocator.Free: asks for a block of at least 16 bytes, which is exactly what a free block needs (`SegWords.FreeNeedsSixteen`); blocks for requests of one to four bytes have 8.
- SegHeap.Allocator.Realloc: asks the same of the block to be resized, because several cases free it or what is split off.
- SegHeap.Allocator.Malloc: covers requests below 0xFFFFFFF0 bytes, for which the block size fits the 32-bit argument of `mem_sbrk`.
- SegHeap.Allocator.ReallocAtEnd: leaves out the split of the grown block, a branch that cannot be reached because the heap never grows by enough for it; the same holds for ReallocNextAndEnd.
- ExplicitHeap.Allocator.Malloc: covers requests below 0xFFFFFFF0 bytes too; beyond that the argument of `mem_sbrk` is cut off.
- ExplicitHeap.Allocator.Free: asks for a live block; a NULL argument is read through by the code.
- KernelSteps.AfterAcquire: the test of the holder, the donation and the first pass of `sema_down` are one step, though interrupts are off only in parts of it; a preemption in between, after which the holder may have changed, is not modelled. The walk must meet only locks with a holder, for otherwise the kernel faults (`Kernel.Machine.LockAcquire`).
- Kernel.Machine.LockAcquire: the walk must end; on a circle of waits the code goes round for ever. Nothing is said about the state after a fault.
- KernelRelease.DonorsDroppedKeeps: each walk over a donation list, and its sorting, is one step; a list half changed at a preemption is not modelled.
- KernelSteps.AfterStop: a thread ends only outside the synchronisation calls; freeing its page is not modelled.
- KernelAftermath.AwaitedStep: the donor kept for a lock given up may register again elsewhere; its one `donation_elem` would then stand on two lists of the code, while here a thread may simply occur in two sequences.
- KernelRuns.EveryRunIsSafe: threads are values in a map, not heap objects, and the list library of Pintos is replaced by sequences; a `struct thread` that is reused after its page is freed is not captured.
- MmuForEach.Pml4ForEach: the function called is known by its answers; one that writes to the tables it is called for is not modelled.
- ArenaMalloc.Kernel.Malloc: links of free blocks are kept beside the blocks and not in their bytes, and the locks of the descriptors are not modelled; a size so large that its page count wraps around is counted without the wrap.
- ProxyCache.Cache.Insert: stamps do not wrap around, and URIs and objects fit their arrays.
- InodeIo.FileSystem.InodeReadAt: one parameter says whether the bounce buffer can be allocated, for the whole call; the same holds for InodeWriteAt.
- BufferedReader.Rio.RioReadlineb: `maxlen` fits an `int`, and the buffer has room for one byte even when `maxlen` is 0, because the zero is written then too; bytes behind the zero are not spoken of.
- PostorderStack.PostOrderIterativeS1: allocating a stack node never fails; the tree is only read, so inserting into it and freeing it are not modelled.
- LostParentheses.LeastValue: the input is a well-formed expression of numerals, plus and minus signs.
- MeetingRooms.Assign: there is at least one meeting, and none ends before it starts.
- MazeBfs.ShortestWay: the maze has at least one row and one column and all rows are full, as the program reads it.
- Calls of `sema_up` from interrupt handlers, condition variables and the unfinished scheduler of Pintos.
- `calloc`, whose overflow test is incomplete, `inode_create`, the two calls that deny and allow writes, and the free map beyond which sectors are in use.
- `pml4_activate` and the invalidation of cached translations, which are hardware.
- The proxy's sockets and threads, the mutex around the cache, and the unbuffered part of the `rio` package.
- `mm.c` and the other implicit-list allocators, which repeat the two modelled.
- The elementary exercises, the drivers and the unfinished skeletons of the labs, which would add only easy members.
