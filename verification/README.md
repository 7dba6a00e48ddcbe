# Frog: five kernel subsystems, modelled and proved

This project models the parts of the Frog kernel whose correctness rests on an algorithm, and proves
what they promise for every input, every run and every interleaving they allow.

- **Timers** (`flat_timers.dfy`, `timer_slots.dfy`, `timer_order.dfy`, `timer_wheel.dfy`). The five-level
  timing wheel with its 32-bit clock refines a flat table from timers to due ticks on a clock that never
  wraps. Every armed timer is called exactly once, in its due tick, across wrap-around; what callbacks arm
  and delete is armed and deleted; and the order of calls within a tick is known exactly.
- **Memory** (`bitmap.dfy`, `page_layer.dfy`, `mem_list.dfy`, `heap.dfy`, `heap_steps.dfy`, `heap_free.dfy`,
  `heap_calls.dfy`, `heap_runs.dfy`, `allocator.dfy`). The allocator works in place on an array of words,
  with its free lists inside the free blocks. Live blocks never overlap each other or the allocator's own
  data, keep their contents over any run, and every page comes back when its last block does.
- **Message passing** (`wait_graph.dfy`, `rendezvous.dfy`, `ipc.dfy`). Each system call is one step. Waiting
  senders never form a cycle, no two processes miss each other, and messages are delivered exactly once
  and in order. The kernel class works on the pointers of the process table and refines those steps.
- **Queues and packets** (`ioqueue.dfy`, `blocking_queue.dfy`, `packagefs.dfy`). Any number of threads put and
  get any number of bytes on one ring buffer; the bytes come out as they went in. On top of it, any number of
  senders and one receiver exchange packets, and nobody is left parked for the other.
- **Locks** (`lock.dfy`). The re-entrant lock is a step system in which only the regions with interrupts off
  are atomic; mutual exclusion and the repeat count are those of the fetches and releases made.
- **Lists** (`ring_list.dfy`). The pointer operations on ring lists refine operations on sequences.
  `sequences.dfy` holds what the other modules need about sequences.

The pattern is the same everywhere. A class does what the source does, with its fields, loops and
branches; its methods are proved against functions on an abstract state; the lemmas about those functions
are the results. Inputs from outside (callbacks, system calls, interrupts, the choice of the next thread)
are arguments, so that the results hold for all of them. Main results are about whole
runs, and read what was asked for off the calls of the run, not off what the steps themselves record.

Some properties that one might expect of the source do not hold. The model keeps the source's behaviour,
shows where it fails, and states exactly when it does hold:

- "Timers are FIFO!", says the comment at core/frog/timer.c:91. Of two timers that are due in the same tick,
  the one armed later is called first exactly when it `Overtakes`, which the two arming clocks and the tick
  decide: when the second was armed, the first was still on a higher level of the wheel than the second was put
  on (`TimerWheel.CalledInOrder`, `TimerOrder.Landing`). Armed at ticks 0 and 45 for tick 300, two timers are
  called in the wrong order (`TimerWheel.LaterTimerOvertakes`); `TimerWheel.ArmBoth` decides it for any ticks.
- `malloc_page` does not give back what it took when frames run out midway (`PageLayer.PageMallocOk`,
  `PageLayer.FailedMallocLeaks`). The two bitmaps of the kernel pool have the same length, but `put_page`
  takes frames, and no virtual pages, from it for the page tables of user addresses. While all pages in use are
  backed, a call that finds its run fails midway exactly when the clear pages are fewer than those it asks for
  plus the frames so taken (`PageLayer.EqualSizes`); one such frame can be enough
  (`PageLayer.PageTableStarves`). `sys_malloc` then loses pages, but no live block is disturbed
  (`HeapCalls.MallocOk`).
- `ioqueue_put_data` needs one byte of free space more than it writes. A put or get that has begun can complete
  exactly when its bytes leave two of the ring unused (`BlockingQueue.CompletesExactly`); a put of `size - 1`
  bytes, for which an empty ring has room, parks its caller for good (`BlockingQueue.FullPutStarves`).
- Two threads that put and get on one ring are never both parked (`BlockingQueue.NoMutualParking`), but they may
  wake each other and park again without end. A putter of `p` and a getter of `g` bytes get on without a third
  thread, from whatever state they are in, exactly when `p + g < size` (`BlockingQueue.PairNeedsNoHelp`). A receiver
  of packets and its senders never get into that state (`PackageFs.AlwaysProgress`).
- The last assertion of `notify_intr`, that `p_sendto` is `NO_TASK`, does not hold of a process that init_thread
  has zeroed. Over any run from the start, an interrupt stops the machine exactly when its process waits for any
  message and was never blocked in a send (`Rendezvous.InterruptStopsExactly`).
- Of the two tests without parentheses, the one in `msg_send` means what was intended
  (`Rendezvous.UnparenthesisedTest`) and the one in `msg_receive` does not: a receive from `INTR_TASK` is handed an
  interrupt message whether or not one is held, and never waits for one (`Rendezvous.SpuriousInterrupt`,
  `Rendezvous.NobodyAwaitsInterrupt`).
- `list_find_element` is not membership: it also answers zero for the last node
  (`RingList.ListFindElement`).

## Model

| member | source | states |
|---|---|---|
| `FlatTimers.DueTick` | core/frog/timer.c:54-89 | a timer is due when the low 32 bits of the clock reach its expiry, or at once if the signed difference is negative |
| `FlatTimers.NeverOverdue` | core/frog/timer.c:165-198 | in every legal run no pending timer lies behind the clock or 2^31 ticks or more ahead of it |
| `FlatTimers.FiresOnTime` | core/frog/timer.c:165-198 | a timer that is not deleted is called in its due tick, and not touched before |
| `FlatTimers.NotFiredBeforeRearmed` | core/frog/timer.c:117-127 | a timer that was called or deleted is not called again before it is armed again |
| `FlatTimers.ExactFiring` | core/frog/timer.c:165-198 | exactly-once firing of the flat table, over every legal run |
| `FlatTimers.InRangeExpiryIsExact` | core/frog/timer.c:60-80 | an expiry less than 2^31 ticks ahead names one tick, the first from the arming clock whose low 32 bits it is |
| `FlatTimers.CallsWereDue` | core/frog/timer.c:174-186 | each call in the log is that of a timer pending and due in that very tick |
| `FlatTimers.CallsWindow` | core/frog/timer.c:153-201 | the calls made between two points of a run carry the low 32 bits of the ticks run between them |
| `FlatTimers.CalledOnceSince` | core/frog/timer.c:165-198 | what the log of calls says of a timer that is armed and then left alone: one call, in its due tick, once that is over, and none before |
| `FlatTimers.SameTickOrder` | core/frog/timer.c:90-94 | of two timers due in the same tick and not deleted before it is over, the one armed first is called first exactly when the other does not overtake it |
| `TimerWheel.FiresExactly` | core/frog/timer.c:54-201 | exact firing on the wheel: a timer not deleted up to its due tick is called once, at `timer_jiffies == expires`, and not before, whatever happens to it afterwards |
| `TimerWheel.FiresLate` | core/frog/timer.c:77-81 | an expiry already past is called once, in the tick about to be run, or in the next one when a callback armed it |
| `TimerWheel.CalledInOrder` | core/frog/timer.c:90-94 | over the log of calls: of two timers called in one tick, the one armed first comes first exactly when it is not overtaken |
| `TimerWheel.ArmBoth` | core/frog/timer.c:90-94 | a run of the wheel for any two timers, arming ticks and due tick: the calls it logs, and in which order |
| `TimerWheel.LaterTimerOvertakes` | core/frog/timer.c:90-94 | a run of the wheel in which the timer armed later for the same tick is called first |
| `TimerWheel.ArmedByCallback` | core/frog/timer.c:174-198 | a timer that a callback arms when idle, and that nobody deletes, is called in its due tick, reckoned from the next tick |
| `TimerWheel.Periodic` | core/frog/timer.c:153-201 | a timer whose callback arms it again is called every so many ticks, exactly, for as long as the clock runs, across wrap-around |
| `TimerOrder.Landing` | core/frog/timer.c:54-94 | a timer that is linked overtakes an older one for the same tick exactly when that one is on a higher level |
| `TimerOrder.OrderedArm` | core/frog/timer.c:96-107 | arming keeps the lists in the order in which timers of one tick are to be called |
| `TimerOrder.OrderedCascade` | core/frog/timer.c:129-151 | a cascade keeps the lists in the order in which timers of one tick are to be called |
| `TimerOrder.OrderedDrain` | core/frog/timer.c:192-198 | re-adding the timers armed by callbacks keeps that order |
| `TimerOrder.FrontGoesFirst` | core/frog/timer.c:166-178 | the first timer of the current slot goes before all others that are due now |
| `TimerSlots.TargetFits` | core/frog/timer.c:54-89 | the slot that internal_add_timer picks is one from which the timer reaches its due tick, at any stage of the cascades |
| `TimerSlots.DueInSlot` | core/frog/timer.c:129-151 | a timer in the slot that a level cascades is due within one slot width from now |
| `TimerSlots.CascadeDone` | core/frog/timer.c:129-151 | emptying the current slot and advancing the index keeps index and slot invariants of all levels |
| `TimerSlots.LowerLevel` | core/frog/timer.c:129-151 | a cascaded timer goes to a lower level, never back to the slot being walked |
| `TimerSlots.IndexTest` | core/frog/timer.c:159-164 | after its cascade a level's index is 1 exactly when the level above has to cascade too |
| `TimerSlots.NoFurtherCascade` | core/frog/timer.c:159-164 | when a level has not wrapped, neither it nor any above needs a cascade in this iteration |
| `TimerSlots.CurrentSlot` | core/frog/timer.c:165-169 | when timers are run, those in the current slot of tv1 are exactly those due now |
| `TimerSlots.NextTick` | core/frog/timer.c:188-190 | advancing `timer_jiffies` and `tv1.index` keeps the invariant once nothing is due |
| `TimerSlots.DistributeAppends` | core/frog/timer.c:140-148 | timers moved to a list come behind those already there and keep their order among themselves |
| `TimerSlots.OneTick` | core/frog/timer.c:156-156 | when the two counters agree exactly one tick is due, also across wrap-around |
| `TimerSlots.TicksLeft` | core/frog/timer.c:156-156 | the loop test on the 32-bit difference counts down the ticks still to be run |
| `TimerWheel.Wheel.constructor` | core/frog/timer.c:38-50 | the empty wheel satisfies the invariant |
| `TimerWheel.Wheel.InternalAddTimer` | core/frog/timer.c:54-94 | the timer is appended to the list chosen, `queued` while timers are being run; no other list changes |
| `TimerWheel.Wheel.AddTimer` | core/frog/timer.c:96-107 | arms the timer at the due tick of the flat table; an armed timer is left alone |
| `TimerWheel.Wheel.DetachTimer` | core/frog/timer.c:109-115 | takes the timer off its list, keeping the order of the rest, and tells whether it was pending |
| `TimerWheel.Wheel.DelTimer` | core/frog/timer.c:117-127 | deletes the timer from the flat table, with the right answer, at any point of a run; only its own list changes, and keeps its order |
| `TimerWheel.Wheel.CascadeTimers` | core/frog/timer.c:129-151 | hands the timers of the current slot to the lower levels in order, ends, and advances the index |
| `TimerWheel.Wheel.CascadeLevels` | core/frog/timer.c:159-164 | after the do-while loop every level's invariant holds and `queued` is still empty |
| `TimerWheel.Wheel.TakeTimer` | core/frog/timer.c:174-180 | takes the front of the current slot, which is the timer to go first; the rest of the slot stays as it is |
| `TimerWheel.Wheel.RunCallback` | core/frog/timer.c:183-183 | all that a callback arms and deletes is armed and deleted, in order, and nothing else; what remains of the current slot is a subsequence of it |
| `TimerWheel.Wheel.FireTimer` | core/frog/timer.c:174-183 | one call: the front timer fires, the call is logged, and its callback runs to its end |
| `TimerWheel.Wheel.FireCurrent` | core/frog/timer.c:165-187 | the repeat loop ends whatever callbacks do, leaves the slot empty, and has called a subsequence of it, front to back, each call followed by all its callback does |
| `TimerWheel.Wheel.DrainQueued` | core/frog/timer.c:192-198 | re-adds the timers armed by callbacks, in order, after the clock has moved on |
| `TimerWheel.Wheel.RunOneTick` | core/frog/timer.c:157-198 | one iteration runs one tick and keeps the invariant; its events are the calls it logs, each with its callback, and no others |
| `TimerWheel.Wheel.RunTimerList` | core/frog/timer.c:153-201 | runs every tick up to `ticks`, none if the signed difference is negative, and ends; the calls it adds carry those ticks, and its events are those of the ticks, one after the other |
| `TimerWheel.Wheel.Inthandler20` | core/thread/sched.c:128-135 | each interrupt runs exactly the tick numbered `ticks`, adds to the log only calls made in it, each with its callback, and then counts it |
| `TimerWheel.Wheel.ArmTimeout` | core/thread/sched.c:151-194 | the sleeper's timer is due exactly `timeout` ticks from now; MAX_SCHEDULE_TIMEOUT and negative timeouts arm none |
| `TimerWheel.Wheel.FinishTimeout` | core/thread/sched.c:196-201 | afterwards the timer is not pending; returns the ticks left, or 0; without a timer, the timeout itself or 0 |
| `TimerWheel.ScheduleTimeout` | core/thread/sched.c:151-203 | a whole sleep among other threads, interrupts and callbacks: the sleeper is called once, in the interrupt at its expiry, exactly if that has come by its return; it returns the ticks left, or 0 |
| `Bitmap.UpdateBits` | core/lib/bitmap.c:14-26 | the byte masks change the one bit meant and no other |
| `Bitmap.FullByte` | core/lib/bitmap.c:39-42 | a byte is 0xff exactly when all its bits are set |
| `Bitmap.Map.InitBitmap` | core/lib/bitmap.c:4-11 | afterwards no bit is set |
| `Bitmap.Map.SetValue` | core/lib/bitmap.c:14-26 | sets or clears exactly the bit asked for |
| `Bitmap.Map.GetValue` | core/lib/bitmap.c:81-89 | reads the bit asked for |
| `Bitmap.Map.FirstClear` | core/lib/bitmap.c:38-54 | the byte-skipping scan finds the first clear bit |
| `Bitmap.Map.FindBlock` | core/lib/bitmap.c:29-79 | finds the lowest run of clear bits of the length asked, and fails exactly when there is none |
| `PageLayer.MapPagesOk` | core/mm/memory.c:146-154 | the mapping loop maps the pages it has frames for, all of them exactly when there are enough |
| `PageLayer.PageMallocOk` | core/mm/memory.c:136-155 | whatever frames others hold: fails exactly without a run or without frames for it; every page in use stays backed exactly when frames do not run out midway; on success the run is new, mapped, and nothing else changes |
| `PageLayer.FailedMallocLeaks` | core/mm/memory.c:146-150 | a call that fails midway leaves its pages and frames taken |
| `PageLayer.EqualSizes` | core/mm/memory.c:232-250 | with bitmaps of the same length, as the kernel pool has, malloc_page fails midway exactly when the frames that back no page leave too few |
| `PageLayer.PageTableStarves` | core/mm/memory.c:384-388 | a pool with equal bitmaps and one frame taken for a page table in which malloc_page fails midway |
| `PageLayer.PageMfreeOk` | core/mm/memory.c:533-544 | unmaps the run, gives back exactly its frames, keeps the rest |
| `PageLayer.MfreeUndoesMalloc` | core/mm/memory.c:533-544 | freeing what a malloc_page gave restores both bitmaps and the map |
| `PageLayer.Pool.GetFreePage` | core/mm/memory.c:85-94 | takes the lowest free frame, or none if there is none |
| `PageLayer.Pool.GetFreeVaddress` | core/mm/memory.c:97-108 | takes the lowest free run of virtual pages, or none |
| `PageLayer.Pool.MallocPage` | core/mm/memory.c:136-155 | in-place page allocation does what the function on pages says |
| `PageLayer.Pool.MfreePage` | core/mm/memory.c:533-544 | in-place page release does what the function on pages says |
| `MemList.RingAddTail` | core/lib/list.c:190-197 | on list heads that live in memory words, appending keeps the ring and writes only to its nodes |
| `MemList.RingDelInit` | core/lib/list.c:222-244 | likewise for removal of any node |
| `Heap.BlockInPage` | core/mm/memory.c:256-267 | every block lies in its page behind the header, so masking finds the arena |
| `Heap.Separation` | core/mm/memory.c:550-678 | a live block shares no word with another live block, an arena header or a free block, and lies on pages in use |
| `HeapSteps.TakeOk` | core/mm/memory.c:627-631 | the popped block becomes live and zero; no live block changes |
| `HeapSteps.GrowOk` | core/mm/memory.c:604-622 | a new arena adds free blocks and hands out none; it fails exactly when no page or no frame is free, and then changes at most the page layer |
| `HeapSteps.LargeOk` | core/mm/memory.c:579-594 | a large arena is new, zero and of the size asked; it fails exactly when there is no run or no frames for it, and then changes at most the page layer |
| `HeapFree.GiveOk` | core/mm/memory.c:664-666 | a block given back is live no more; no live block changes, although links are written into free ones |
| `HeapFree.CountBound` | core/mm/memory.c:666-666 | the count reaches blocks_per_arena exactly when all blocks of the arena are free |
| `HeapFree.DelBlocksOk` | core/mm/memory.c:668-672 | the loop takes all blocks of the arena off the free list and keeps the order of the others |
| `HeapFree.ReclaimOk` | core/mm/memory.c:666-674 | giving back an arena without live blocks keeps the heap well formed and disturbs nobody |
| `HeapFree.FreeLargeOk` | core/mm/memory.c:658-660 | giving back a large arena ends only that block |
| `HeapCalls.SizeClass` | core/mm/memory.c:596-602 | the smallest descriptor whose blocks hold the size |
| `HeapCalls.PageCount` | core/mm/memory.c:580-580 | enough pages for size and header, less than one page too many |
| `HeapCalls.MallocOk` | core/mm/memory.c:550-635 | NULL exactly for a bad size or for want of pages or frames; the heap is then as before exactly when the frames did not run out midway; else a new, zero, large enough block; in all cases all live blocks untouched |
| `HeapCalls.SmallBlock` | core/mm/memory.c:596-631 | a request of at most 1024 bytes gets a block of the smallest size that holds it: the front of that free list, or the first block of a new arena if it is empty; no other list changes |
| `HeapCalls.LargeBlock` | core/mm/memory.c:579-594 | a larger request gets an arena of its own, of just as many pages as size and header need |
| `HeapCalls.LastBlock` | core/mm/memory.c:666-666 | the counter test succeeds exactly when no other block of the arena is live |
| `HeapCalls.FreeOk` | core/mm/memory.c:637-678 | only the block freed ends; all others keep their contents; the pages go back exactly with the last live block |
| `HeapCalls.FreedLists` | core/mm/memory.c:658-674 | a small block goes to the end of its own free list; if its arena goes back, just the blocks of that leave the list |
| `HeapRuns.Bookkeeping` | core/mm/memory.c:604-631 | cnt is the number of free blocks, each listed once; with the live ones they make up the arena, and one is always live |
| `HeapRuns.FreeUndoesMalloc` | core/mm/memory.c:550-678 | freeing what was just got restores pages and arenas, and each free list up to order |
| `HeapRuns.WriteOk` | core/mm/memory.c:550-678 | what an owner writes inside its block is there, no other word changes, and the heap stays well formed |
| `HeapRuns.KernelPagesOk` | core/mm/memory.c:506-515 | get_kernel_page for another client gives zeroed pages that were clear, marks and maps them, and disturbs no block |
| `HeapRuns.FreePagesOk` | core/mm/memory.c:533-544 | mfree_page of such pages gives back just those and their frames, and keeps the heap well formed |
| `HeapRuns.TakeFrameOk` | core/mm/memory.c:384-388 | put_page takes one frame for a page table if there is one, and the heap stays well formed |
| `HeapRuns.GiveFrameOk` | core/mm/memory.c:311-316 | free_phy_page gives back that frame only |
| `HeapRuns.ContentsKept` | core/mm/memory.c:550-678 | over any run, with other clients of the pool in between, a block neither freed nor written by its owner stays live with every word as it was |
| `HeapRuns.StartOk` | core/mm/memory.c:161-172 | the heap that initialisation leaves is well formed and empty |
| `HeapRuns.AlwaysSeparate` | core/mm/memory.c:550-678 | separation in every state that any run from the start leads to, on pages in use |
| `Allocator.KernelHeap.constructor` | core/mm/memory.c:161-172 | initialisation in place yields the start state |
| `Allocator.MemInit` | core/mm/memory.c:174-249 | builds the kernel heap from two cleared bitmaps of the same length: the start state, in which every call may begin |
| `Allocator.KernelHeap.ListAddTail` | core/lib/list.c:190-197 | the word writes of list_add_tail, in place |
| `Allocator.KernelHeap.ListDelInit` | core/lib/list.c:222-244 | the word writes of list_del_init, in place |
| `Allocator.KernelHeap.BlockDescInit` | core/mm/memory.c:161-172 | sets block_size and blocks_per_arena of the seven descriptors, and leaves their free lists empty |
| `Allocator.KernelHeap.FindDesc` | core/mm/memory.c:596-602 | the descriptor loop finds the size class |
| `Allocator.KernelHeap.NewArena` | core/mm/memory.c:604-622 | in-place growth does what the function on heaps says |
| `Allocator.KernelHeap.PopBlock` | core/mm/memory.c:627-631 | in-place pop, memset and count do what the function on heaps says |
| `Allocator.KernelHeap.SysMalloc` | core/mm/memory.c:550-635 | sys_malloc in place returns and leaves what the function on heaps says |
| `Allocator.KernelHeap.PushBlock` | core/mm/memory.c:664-666 | in-place push and count do what the function on heaps says |
| `Allocator.KernelHeap.ReleaseArena` | core/mm/memory.c:666-674 | in-place unlinking and page release do what the function on heaps says |
| `Allocator.KernelHeap.SysFree` | core/mm/memory.c:637-678 | sys_free in place, branching on the header words, leaves what the function on heaps says |
| `WaitGraph.AddEdge` | core/ipc/ipc.c:24-38 | a new edge keeps a graph of waiting processes acyclic exactly when its target does not reach its source |
| `WaitGraph.SubgraphAcyclic` | core/ipc/ipc.c:226-229 | taking edges away keeps it acyclic |
| `Rendezvous.ExecStep` | core/usr/syscall-init.c:45-83 | every call, wake-up and interrupt keeps the invariant, or stops the machine for exactly the causes named: no other assertion can fail |
| `Rendezvous.SendStep` | core/ipc/ipc.c:92-149 | a send keeps the invariant and is stopped exactly for a missing target or a cycle |
| `Rendezvous.ReceiveStep` | core/ipc/ipc.c:163-246 | a receive keeps the invariant and faults exactly for a named process that does not exist |
| `Rendezvous.InterruptStep` | core/ipc/ipc.c:253-273 | an interrupt keeps the invariant and is stopped exactly when its process waits for any message with p_sendto still 0 |
| `Rendezvous.InterruptOutcome` | core/ipc/ipc.c:253-273 | an interrupt that does not stop the machine unblocks its process with an interrupt message exactly if that waits for any message, and is held for it otherwise; nothing else changes |
| `Rendezvous.InterruptReceived` | core/ipc/ipc.c:173-182 | over any run, an interrupt that came while its process did not wait is given to it when it next asks for any message |
| `Rendezvous.InterruptWakes` | core/ipc/ipc.c:257-269 | over any run, one that came while it waited is what its receive returns |
| `Rendezvous.NeverSentExactly` | core/ipc/ipc.c:124-126 | over any run, p_sendto is 0 exactly when it was 0 before and the process was never blocked in a send |
| `Rendezvous.InterruptStopsExactly` | core/ipc/ipc.c:257-269 | over any run from the start, an interrupt stops the machine exactly when its process waits for any message and was never blocked in a send |
| `Rendezvous.RendezvousSafety` | core/ipc/ipc.c:107-146 | no reachable state has a receiver and a sender blocked waiting for each other, nor a cycle of waiting senders |
| `Rendezvous.NoMissedInterrupt` | core/ipc/ipc.c:173-182 | no reachable state has a process waiting for any message while an interrupt is held for it |
| `Rendezvous.InterruptStaysHeld` | core/ipc/ipc.c:253-273 | a held interrupt stays held, whatever anyone does, until the process itself asks for any message or for an interrupt |
| `Rendezvous.AcceptsExactly` | core/usr/syscall-init.c:52-73 | a SEND or BOTH that goes through has its message accepted word for word with the caller as its source; no other call has any |
| `Rendezvous.ExactlyOnce` | core/ipc/ipc.c:92-246 | over any run, what one process was given from another is a prefix of what the calls of that one sent it, contents and order kept; at most two messages are under way |
| `Rendezvous.CallOutcome` | core/usr/syscall-init.c:60-80 | over any run, SEND returns nothing, RECEIVE and BOTH one message from the process they name, or an interrupt if that was asked for or held; the caller is back in user mode then and blocked otherwise |
| `Rendezvous.OldestFirst` | core/ipc/ipc.c:186-229 | a receive from any takes the longest waiting sender; one from a named sender unlinks only that one |
| `Rendezvous.QueueIsWaiters` | core/ipc/ipc.c:124-140 | a sending queue holds exactly those blocked sending to its owner, each once, in the order they blocked |
| `Rendezvous.UnparenthesisedTest` | core/ipc/ipc.c:107-109 | the test without parentheses means what was intended in every reachable state |
| `Rendezvous.SpuriousInterrupt` | core/ipc/ipc.c:173-182 | a receive is handed an interrupt message with none held exactly when it asks for interrupts only |
| `Rendezvous.NobodyAwaitsInterrupt` | core/ipc/ipc.c:257-258 | in no reachable state does a process wait for interrupts only |
| `Rendezvous.FreshInterrupt` | core/ipc/ipc.c:173-182 | a process that asks for an interrupt is told of one although none has happened |
| `Rendezvous.DeadlockExactly` | core/ipc/ipc.c:98-100 | a send, alone or as half of BOTH, is refused exactly when its edge would close a cycle |
| `Rendezvous.FreshReceiverStopped` | core/ipc/ipc.c:266-269 | a process that has not sent before and receives is stopped by its first interrupt |
| `Ipc.Kernel.constructor` | core/thread/threads.c:118-121 | a table of zeroed processes is the initial state |
| `Ipc.Kernel.DetectCycle` | core/ipc/ipc.c:24-38 | the walk along p_sendto ends and answers whether the target reaches the source |
| `Ipc.Kernel.Append` | core/ipc/ipc.c:130-139 | the pointer walk links the sender behind the last of the queue and leaves the other queues alone |
| `Ipc.Kernel.MsgSend` | core/ipc/ipc.c:92-149 | msg_send on the process table leaves what the step says, assertion for assertion |
| `Ipc.Kernel.FindSender` | core/ipc/ipc.c:186-209 | finds the sender to take from, and its predecessor in the queue |
| `Ipc.Kernel.Unqueue` | core/ipc/ipc.c:211-219 | the pointer surgery cuts one sender out of the queue and leaves the others linked |
| `Ipc.Kernel.MsgReceive` | core/ipc/ipc.c:163-246 | msg_receive on the process table leaves what the step says |
| `Ipc.Kernel.Resume` | core/ipc/ipc.c:240-245 | a process that is scheduled again finishes its call as the step says |
| `Ipc.Kernel.SysSendrec` | core/usr/syscall-init.c:45-83 | SEND, RECEIVE, BOTH and the argument checks, as the step says |
| `Ipc.Kernel.NotifyIntr` | core/ipc/ipc.c:253-273 | notify_intr on the process table leaves what the step says |
| `RingList.InitListHead` | core/include/list.h:79-83 | an empty ring |
| `RingList.ListAdd` | core/lib/list.c:176-183 | prepends, keeps prev and next inverse, writes to no other list |
| `RingList.ListAddTail` | core/lib/list.c:190-197 | appends, likewise |
| `RingList.ListDel` | core/lib/list.c:222-231 | removes the node at its place and clears its links |
| `RingList.ListDelInit` | core/lib/list.c:240-244 | the same, and leaves the node a ring of its own |
| `RingList.ListPop` | core/lib/list.c:203-208 | removes the first node; of an empty list it returns the head |
| `RingList.ListAppend` | core/lib/list.c:300-314 | the list appended comes before the other, as a concatenation |
| `RingList.ListAppendTail` | core/lib/list.c:326-338 | the list appended comes behind the other |
| `RingList.ListLength` | core/lib/list.c:157-169 | counts the nodes |
| `RingList.ListFindElement` | core/lib/list.c:33-40 | answers whether the node is in the list and not its last |
| `RingList.ListWalker` | core/lib/list.c:81-98 | finds the first node that the function accepts |
| `IoQueue.CircleQueue.Available` | core/lib/ioqueue.c:7-21 | free space and unread bytes add up to the size less one |
| `IoQueue.CircleQueue.Unread` | core/lib/ioqueue.c:23-33 | the number of unread bytes |
| `IoQueue.CircleQueue.NextIndex` | core/lib/ioqueue.c:78-81 | the successor of a place in the ring |
| `IoQueue.SpanPut` | core/lib/ioqueue.c:129-136 | a byte written at the producer's place appends to the unread bytes, across the end of the ring |
| `IoQueue.SpanGet` | core/lib/ioqueue.c:163-168 | the byte at the consumer's place is the oldest unread one |
| `IoQueue.CircleQueue.TryPut` | core/lib/ioqueue.c:127-137 | all bytes are appended if they fit with one to spare, else none |
| `IoQueue.CircleQueue.TryGet` | core/lib/ioqueue.c:159-169 | exactly the oldest bytes asked for are removed, or none |
| `BlockingQueue.ByteStream` | core/lib/ioqueue.c:121-187 | however puts and gets of any size interleave, the bytes got and those in the ring are the bytes put, in order |
| `BlockingQueue.DoneAsAsked` | core/lib/ioqueue.c:121-187 | over any run, a thread has put and got, call by call, what it asked for, but for the call it is in |
| `BlockingQueue.CompletesExactly` | core/lib/ioqueue.c:121-187 | in every reachable state, some run completes a put or get that has begun exactly when its bytes leave two of the ring unused |
| `BlockingQueue.FullPutStarves` | core/lib/ioqueue.c:121-151 | a run after which a put of `size - 1` bytes is parked on an empty ring and no run completes it |
| `BlockingQueue.NoMutualParking` | core/lib/ioqueue.c:121-187 | in no reachable state are a putter and a getter both parked, for any threads and byte counts |
| `BlockingQueue.ProgressExactly` | core/lib/ioqueue.c:121-187 | the threads in a put or get can complete one of them among themselves exactly when a pass of one goes through now |
| `BlockingQueue.PairNeedsNoHelp` | core/lib/ioqueue.c:121-187 | a putter and a getter always get on without a third thread exactly when their bytes together are fewer than the ring's places |
| `BlockingQueue.BlockingRing.WakeUpConsumors` | core/lib/ioqueue.c:83-102 | unblocks every thread on the consumers' wait list and empties it |
| `BlockingQueue.BlockingRing.WakeUpProducers` | core/lib/ioqueue.c:83-109 | unblocks every thread on the producers' wait list and empties it |
| `BlockingQueue.BlockingRing.PutPass` | core/lib/ioqueue.c:121-151 | one pass of ioqueue_put_data on ring and wait lists is the step |
| `BlockingQueue.BlockingRing.GetPass` | core/lib/ioqueue.c:155-187 | one pass of ioqueue_get_data on ring and wait lists is the step, and the bytes it returns |
| `PackageFs.DecodeEncode` | core/vfs/packagefs.c:95-96 | the size read from the first four bytes is the size written |
| `PackageFs.StepKeeps` | core/vfs/packagefs.c:91-141 | every put and get, in any interleaving, keeps the framing |
| `PackageFs.PacketsInOrder` | core/vfs/packagefs.c:91-141 | the packets received are those sent, with size, source and data, in the order they were put |
| `PackageFs.SentAsAsked` | core/vfs/packagefs.c:106-141 | over any run, the packets put are, sender by sender and in order, those it was asked to send, but for the one it is putting |
| `PackageFs.WholeFrames` | core/vfs/packagefs.c:106-141 | the queue holds whole frames behind at most one partly read one |
| `PackageFs.OnRing` | core/vfs/packagefs.c:91-141 | every reachable state of the packet system is one that puts and gets of frames on the blocking ring reach |
| `PackageFs.NoMutualBlocking` | core/lib/ioqueue.c:121-187 | the receiver and a sender are never both parked, and the receiver never parks inside a packet |
| `PackageFs.AlwaysProgress` | core/lib/ioqueue.c:121-187 | while the receiver is in receive_packet and a byte is queued or a sender is in its put, they get on among themselves |
| `PackageFs.SecondGetCompletes` | core/vfs/packagefs.c:97-99 | the second get of receive_packet finds and completes the packet |
| `PackageFs.ProgressAfterPark` | core/lib/ioqueue.c:121-151 | a woken sender goes through once the queue is empty; a put wakes the receiver |
| `PackageFs.PutMirrors` | core/vfs/packagefs.c:106-141 | the put of a packet is a put of its frame on the blocking ring |
| `PackageFs.GetMirrors` | core/vfs/packagefs.c:91-102 | each get of receive_packet is a get on the blocking ring |
| `PackageFs.Channel.Send` | core/vfs/packagefs.c:106-141 | lays the packet out in one buffer and begins its put |
| `PackageFs.Channel.Receive` | core/vfs/packagefs.c:91-95 | begins the get of the size |
| `PackageFs.Channel.PutPass` | core/lib/ioqueue.c:121-151 | one pass of the put of a packet, on ring and wait lists, is the step |
| `PackageFs.Channel.GetPass` | core/vfs/packagefs.c:91-102 | one pass of a get of receive_packet, on ring and wait lists, is the step: the size read is what the second get asks for, and its bytes make up the packet |
| `Lock.Semaphore.Down` | core/thread/semaphore.c:42-57 | one pass of the loop: takes the semaphore or queues the thread |
| `Lock.Semaphore.Up` | core/thread/semaphore.c:62-72 | frees the semaphore and unblocks the first in the queue |
| `Lock.StepKeeps` | core/thread/semaphore.c:42-96 | every step of every thread keeps the invariant and meets its assertion |
| `Lock.AssertionsHold` | core/thread/semaphore.c:42-96 | no assertion of the lock functions fails under any interleaving |
| `Lock.DepthCounts` | core/thread/semaphore.c:75-96 | over any run, a thread outside the lock functions may release exactly if it has fetched more often than released |
| `Lock.MutualExclusion` | core/thread/semaphore.c:75-96 | over any run, at most one thread has fetched the lock more often than released it; it is the holder, and the repeat count is the difference |
| `Lock.OneHolder` | core/thread/semaphore.c:75-96 | nor do two threads have the lock at any point in the middle of a call |
| `Lock.FreeOnceReleased` | core/thread/semaphore.c:87-96 | once all have released as often as fetched, the lock is free and nobody is queued |
| `Lock.WokenInOrder` | core/thread/semaphore.c:42-72 | over any run, threads are woken in the order in which they went to sleep |
| `Lock.NoLostWakeup` | core/thread/semaphore.c:62-72 | while the semaphore is free and threads are queued, one that was popped is on its way and would get it |

## Left out

Timers:

- A timer is a number and a slot a sequence; that lists of nodes act as sequences is proved in `ring_list.dfy`.
- The owner of a pending timer does not change its `expires`; callbacks run with interrupts off and add and delete timers only.
- TimerWheel.ScheduleTimeout: when the sleeper is back on the processor is an argument, the number of interrupts until then; process_timeout and the ready list are not modelled.

Memory:

- One pool, the kernel's; the user pool and process address spaces are not modelled. Other clients of the kernel pool (`get_kernel_page`, `mfree_page`, page tables and their release) are steps of the runs in `heap_runs.dfy`; they are taken to return only what is not the allocator's.
- Page tables are a map; creating page tables, TLB flushes and the bounds checks of `free_page` (which test `>` where `>=` is meant) are left out.
- Memory is an array of 4-byte words numbered from the start of the pool, with the descriptors behind it. A write outside of it, which well-formed lists never make, is skipped.
- HeapCalls.FreeOk: the pointer freed is a live block, as the source demands; freeing anything else is not modelled.
- The search of `find_block_bitmap` reads one byte past a full map before it tests for the end; the byte is taken to be readable.
- The locks around both calls are taken as given; `lock.dfy` covers them.

Message passing:

- Rendezvous.ExactlyOnce: covers messages between processes. A receive of an interrupt fills the slot in the process table and not the caller's buffer.
- Pointers to processes are process numbers, the two bits of `p_flags` two booleans, the payload one number; the set of processes is fixed, with numbers below INTR_TASK.
- Rendezvous.ExecStep: assumes process numbers above 0. The main thread has number 0 (core/thread/threads.c:198); a message that it had to queue would fail the assertion `m_source > 0` (core/ipc/ipc.c:221) when it is taken.
- A system call runs without preemption up to where it blocks. Which unblocked process runs next is arbitrary.
- exec, fork and exit.

Packets:

- One receiver per packet queue, as receive_packet needs; a put or get of no bytes, which does nothing, is not a step.
- The copies in `read_server` and `read_client`, which drop a packet larger than the caller's buffer, failing `sys_malloc` calls, and the broadcast loop are left out.
- Each pass under the queue lock is one step; the queue lock is that of `lock.dfy`. This leaves out a window between putting a thread on a wait list and turning interrupts off (core/lib/ioqueue.c:143-144, and 176-177 for gets): the list link is the thread's `general_tag`, and a thread preempted there is linked on the ready list by the same tag.

Locks and lists:

- The ready list and the choice of the next thread; a thread that is unblocked runs at some time.
- `list_map`, `list_destory`, `list_cut_position`, the `_init` variants and the other walkers; `hashmap`, whose lookup skips the key test on one-entry chains.

Elsewhere: drivers, the file system, the user interface, boot code and everything behind inline assembly.
