# Verification models for the Zinnia kernel

This project models the parts of the kernel that keep the most state, in Dafny, and proves what they
promise.  The modules are independent of one another, except where they are named together.

- `Ext2Layout`, `Ext2Allocator`, `Ext2Tree`, `Ext2State`, `Ext2` (file `Ext2Super.dfy`), `Ext2Short`: the block
  map of ext2.  Lookup, allocation and truncation walk direct, single, double and triple indirect blocks in three
  different ways; all three are proved against one ghost tree of block addresses, down to the bytes of
  bitmaps and indirect blocks.
- `Ext2Dir`: directory blocks, as bytes and as the records that tile them.
- `Ext2Pager`: the extent-coalescing reader of file pages and the block-by-block one.
- `Sched`, `SchedSections`, `SchedWindows`, `SchedCode`, `RunQueue`, `RunOrder`, `Events`: the scheduler.  `Sched` is a
  machine
  whose steps interleave freely over all CPUs.  `SchedSections` splits its wakes, preemptions and yields into the
  critical sections they are made of, `SchedWindows` does so with the selection of a task and has the wakes remember
  what they saw.  Both prove that the runs are those of `Sched` unless a wake sets a flag too late, and that every
  such flag breaks what `Sched` keeps.  `SchedCode` has the code itself, over run queues of `RunQueue`, as methods
  that make the steps; `RunOrder` says in which order a run queue gives out its tasks, and `Events` adds guards, waiter
  lists and wakes.
- `Pmm`: the physical page allocator, a coalescing free list threaded through the page records.
- `PageCache`, `CacheThreads`: cached, direct and write-back paths over an abstract pager, by one thread and by
  several.
- `Nvme` and `Virtqueue`: an NVMe I/O queue pair and a split virtqueue, each with a well-behaved device whose
  steps interleave with those of the driver.
- `InitGraph`: the boot dependency graph.
- `Signals`, `SignalRace`: signal queues and the delivery loop, and sends that interleave.
- `Timers`: interval timers, as a loop and as a division.
- `Pipe`: pipes over a ring buffer, with scatter/gather lists for user memory.
- `Common`, `Arith`, `FlatBytes`: what several of them share.

Code that changes state is a class with the fields of the original and methods that change them; what every
method keeps is its `Valid` predicate, so it holds after every sequence of calls.  Ghost fields hold what the
proofs speak about: block trees, regions, histories.  Values that the code cannot choose itself, such as whether
an I/O succeeds or which user buffer faults, are parameters.

Some promises do not hold for the code as it is.  Each of them has a member that shows an input and one that
states exactly when it holds:

- A wake can be lost if a task is preempted between its test of the flag and its sleep (`Events.LostWake`);
  without such preemptions none is (`Events.NoLostWake`), and from every state with one a wake can still be lost
  (`Events.IntrusionLoses`).
- A wake that chose its CPU before the task ran elsewhere queues it where its context is not
  (`SchedSections.StaleWake`; exactly then, `Sched.AddTaskIff`).
- A wake looks at the state of the task in one section and sets its `queued` flag in another.  If a CPU selects the
  task in between, it is queued although that CPU runs it (`SchedWindows.WindowReached`), and a second CPU can come to
  run it as well (`SchedWindows.Straddle`).  The flag is too late exactly when the task is not queued and is counted,
  or another CPU has its context (`SchedWindows.FlagIff` and `SchedWindows.LateBreaks`, `SchedSections.SetIff`); runs
  without such flags keep the promise (`SchedWindows.Safety`).
- A timeshare task that used less of its time can wait for one that used more (`RunQueue.LessWaits`; exactly when,
  `RunOrder.LessFirstIff`): popping moves the place for removal past the place for adding.
- The comments in `kernel/src/memory/pmm.rs` (lines 15 to 18) promise memory below 1 MiB or 4 GiB; the code
  tests the start of the region and hands out its tail (`Pmm.LimitExceeded`; the last clause of `Pmm.Pmm.Alloc`).
- A mapping that runs out of space half way leaves pointer blocks that no inode counts
  (`Ext2Short.ShortOfSpace`; the clause on `Valid` of `Ext2.Ext2Super.MapBlock`).
- A directory block of 64 KiB or more loses a new entry (`Ext2Dir.NewBlockListed`) and can lose entries when one
  is removed (`Ext2Dir.BigBlockLoses`; `Ext2Dir.ErasedLaid`); a name of more than 255 bytes is cut
  (`Ext2Dir.ShownWhole`).
- A page of a file system with blocks larger than a page is read from the wrong place unless it starts its block
  (`Ext2Pager.SecondPageWrong`; `Ext2Pager.RightIff`).
- A write that fails half way leaves pages that are changed and not dirty (`PageCache.FailedWriteUnseen`; the
  clause on `Clean` of `PageCache.PagedMemoryObject.WriteFile`).
- The division form of a timer sets a deadline in the past, and then counts too much, when a count does not fit
  32 bits (`Timers.CountedTwice`; `Timers.CappedIff` and `Timers.AdvancesCompose`).
- Two sends that interleave can leave SIGCONT and a stop signal both pending (`Signals.InterleavedSends`;
  `SignalRace.TwoSends`).
- A pipe read whose user memory faults loses the bytes it took (`Pipe.BytesLost`; the clauses of
  `Pipe.PipeBuffer.Read`).

## Model

| member | source | states |
|---|---|---|
| `Ext2Layout.PutWordUpdates` | drivers/fs/ext2/src/lib.rs:888-900 | patching four little-endian bytes changes exactly one pointer of an indirect block and no neighbour |
| `Ext2Layout.SetBit` | drivers/fs/ext2/src/lib.rs:444-448 | setting a bit of a bitmap byte changes exactly that bit of the flat bit view |
| `Ext2Layout.ClearBit` | drivers/fs/ext2/src/lib.rs:519-522 | clearing a bit changes exactly that bit |
| `Ext2Layout.FindClearBit` | drivers/fs/ext2/src/lib.rs:440-446 | the byte-wise scan finds the lowest clear bit, and none exactly when all bits are set |
| `Ext2Allocator.NumberInverse` | drivers/fs/ext2/src/lib.rs:452-455 | group and index computed by a free give back the pair that an allocation numbered |
| `Ext2Allocator.InverseNumber` | drivers/fs/ext2/src/lib.rs:509-511 | numbering the group and index of a block gives the block, so the two computations are inverse |
| `Ext2Allocator.FlipKeeps` | drivers/fs/ext2/src/lib.rs:447-457 | flipping a bit and moving both counters by one keeps every group count equal to the clear bits of its bitmap and the superblock count equal to their sum |
| `Ext2Tree.LeafReaches` | drivers/fs/ext2/src/lib.rs:341-404 | the path computed for a logical block is a data slot of that file and covers exactly that logical block, at all four depths |
| `Ext2Tree.LeafInjective` | drivers/fs/ext2/src/lib.rs:341-404 | two logical blocks of two files share a slot only if they are the same block of the same file |
| `Ext2Tree.LeafSingle` | drivers/fs/ext2/src/lib.rs:355-361 | the path through the single indirect block is the one the code computes |
| `Ext2Tree.LeafDouble` | drivers/fs/ext2/src/lib.rs:366-378 | the quotient and remainder of the double indirect case are the steps of the path |
| `Ext2Tree.LeafTriple` | drivers/fs/ext2/src/lib.rs:383-401 | the two quotients and remainders of the triple indirect case are the steps of the path |
| `Ext2Tree.CutResolves` | drivers/fs/ext2/src/lib.rs:611-641 | after a cut every logical block below `keep`, and every block of another file, resolves as before, and every other one to zero |
| `Ext2Tree.CutCounts` | drivers/fs/ext2/src/lib.rs:611-641 | the blocks that a cut removes all belong to the file that is cut, and the file loses exactly as many |
| `Ext2Tree.GapFill` | drivers/fs/ext2/src/lib.rs:849-885 | each pointer block that is linked shortens the chain still missing to a logical block by one |
| `Ext2State.TakeKeeps` | drivers/fs/ext2/src/lib.rs:426-465 | marking a clear bit gives a block that nobody owns, keeps the counters exact and keeps owned blocks and tree blocks apart |
| `Ext2State.GiveKeeps` | drivers/fs/ext2/src/lib.rs:507-528 | clearing the bit of a block is the exact inverse of taking it |
| `Ext2State.Restored` | drivers/fs/ext2/src/lib.rs:837-841 | equal bit views are equal bitmap bytes, so a rollback of the view is a rollback of the bytes |
| `Ext2State.OneOwner` | drivers/fs/ext2/src/lib.rs:551-715 | no block is referenced from two places, in whatever slots of inodes and entries of indirect blocks |
| `Ext2State.SectorsFit` | drivers/fs/ext2/src/lib.rs:843-844 | the sector count of a file is at most that of the volume, so it fits its 32 bits on every volume below 2 TiB |
| `Ext2State.PlacedResolves` | drivers/fs/ext2/src/lib.rs:781-847 | a mapping changes the answer for no other logical block of any file |
| `Ext2State.FilesPlaced` | drivers/fs/ext2/src/lib.rs:781-847 | after a mapping the inode table agrees with the trees: pointers and sector counts |
| `Ext2State.FilesShort` | drivers/fs/ext2/src/lib.rs:837-841 | when space runs out half way, the table still agrees with the trees exactly when no pointer block was made |
| `Ext2State.FilesCut` | drivers/fs/ext2/src/lib.rs:611-641 | after a truncation the inode table agrees with the trees |
| `Ext2State.FilesGone` | drivers/fs/ext2/src/lib.rs:571-588 | after an inode is freed the inode table agrees with the trees |
| `Ext2.Ext2Super.TakeBlock` | drivers/fs/ext2/src/lib.rs:447-458 | the bit is set, both counters fall by one and the block number belongs to no file |
| `Ext2.Ext2Super.AllocBlock` | drivers/fs/ext2/src/lib.rs:426-465 | the block handed out was free, and is the first free one of the first group with one, cyclically from the preferred group; ENOSPC is reported only when no bit of any group is clear, and then nothing changed |
| `Ext2.Ext2Super.FreeBlock` | drivers/fs/ext2/src/lib.rs:507-528 | undoes the taking of the block in bitmap and counters |
| `Ext2.Ext2Super.ReadBlockPtr` | drivers/fs/ext2/src/lib.rs:407-423 | reads the pointer, or EINVAL past the end of the block |
| `Ext2.Ext2Super.WriteBlockPtr` | drivers/fs/ext2/src/lib.rs:888-900 | writes exactly one pointer, cut to 32 bits, or EINVAL past the end of the block |
| `Ext2.Ext2Super.FreeSubtree` | drivers/fs/ext2/src/lib.rs:695-715 | frees each block of a subtree exactly once; the result is the number of bits cleared |
| `Ext2.Ext2Super.FreeEntries` | drivers/fs/ext2/src/lib.rs:701-711 | the loop over the entries of an indirect block frees the subtrees below it, each block once |
| `Ext2.Ext2Super.TruncateIndirect` | drivers/fs/ext2/src/lib.rs:643-693 | cuts a subtree at `keep`: exactly the part at or past it goes, the slot becomes zero if nothing stays, and what stays is not rewritten |
| `Ext2.Ext2Super.TruncateEntries` | drivers/fs/ext2/src/lib.rs:660-683 | the loop over the entries cuts the part of the subtree it has passed |
| `Ext2.Ext2Super.ResolveBlock` | drivers/fs/ext2/src/lib.rs:341-404 | returns what the block tree holds at that logical block, zero for a hole at any depth, EFBIG past the limit |
| `Ext2.Ext2Super.ResolveDouble` | drivers/fs/ext2/src/lib.rs:366-378 | the double indirect lookup agrees with the block tree |
| `Ext2.Ext2Super.ResolveTriple` | drivers/fs/ext2/src/lib.rs:383-401 | the triple indirect lookup agrees with the block tree |
| `Ext2.Ext2Super.AllocZeroed` | drivers/fs/ext2/src/lib.rs:870-872 | a fresh pointer block starts with all pointers zero |
| `Ext2.Ext2Super.MapIndirect` | drivers/fs/ext2/src/lib.rs:849-885 | links the data block below an indirect block, making the pointer blocks that are missing; it fails exactly when they do not all fit |
| `Ext2.Ext2Super.AllocBlockForInode` | drivers/fs/ext2/src/lib.rs:781-847 | the new block resolves there and everything else as before; it is the first free one from the group of the inode on, and all its bytes are zero; success exactly when the free blocks cover the gap; on EFBIG bitmap and counters are restored; after ENOSPC half way exactly the pointer blocks made stay taken |
| `Ext2.Ext2Super.TruncateBlocks` | drivers/fs/ext2/src/lib.rs:611-641 | the tree is cut at `keep`, each dropped block is freed once, and the sector count falls by the blocks freed |
| `Ext2.Ext2Super.FreeInodeData` | drivers/fs/ext2/src/lib.rs:571-588 | the file owns nothing afterwards and its inode is empty; a fast symlink frees nothing |
| `Ext2.Ext2Super.MapBlock` | drivers/fs/ext2/src/inode.rs:393-399 | resolves or allocates one block of a write; every logical block of every file reads as before, a mapped hole as the hole did; disk and inode table stay in agreement exactly when the free blocks cover the gap, the block is past the limit, or at most one block was free |
| `Ext2State.PlacedContent` | drivers/fs/ext2/src/lib.rs:781-847 | a mapping that hands out a zeroed block changes nothing that a reader of any file sees |
| `Ext2State.CutoffContent` | drivers/fs/ext2/src/lib.rs:611-641 | after a cut the file reads as zeros from the first block cut on, and every other block of every file as before |
| `Ext2.Ext2Super.Truncate` | drivers/fs/ext2/src/inode.rs:336-360 | cuts to the blocks of the new length and sets the size; the blocks that stay, and all other files, read as before |
| `Ext2.Ext2Super.Remove` | drivers/fs/ext2/src/lib.rs:571-588 | freeing an inode keeps bitmap, counters, trees and table in agreement, and every other file reads as before |
| `Ext2.Ext2Super.Run` | drivers/fs/ext2/src/lib.rs:426-885 | every run of mappings, truncations and removals, failed mappings included, keeps bitmap, counters, trees and inodes in agreement until a mapping runs out of space half way, and exactly until then; a file that was neither cut nor dropped reads as before |
| `Ext2Short.ShortOfSpace` | drivers/fs/ext2/src/lib.rs:837-841 | on a volume with two free blocks, a mapping that needs three fails and leaves a pointer block that no inode counts |
| `Ext2Dir.LaidFrame` | drivers/fs/ext2/src/inode.rs:506-551 | records depend on no byte outside them |
| `Ext2Dir.LaidListed` | drivers/fs/ext2/src/inode.rs:519-546 | the listing of a block that is tiled by records is exactly its live, named records in order |
| `Ext2Dir.Written` | drivers/fs/ext2/src/inode.rs:597-615 | a header followed by a name reads back as that record, with the name cut to the length that one byte can hold |
| `Ext2Dir.ListBlock` | drivers/fs/ext2/src/inode.rs:519-546 | the listing loop over arbitrary bytes, also broken ones, and over blocks that the directory ends in |
| `Ext2Dir.AddInBlock` | drivers/fs/ext2/src/inode.rs:569-641 | the entry goes to the first record with room, and lengths tile the block as before; without room no byte changes |
| `Ext2Dir.PutEntry` | drivers/fs/ext2/src/inode.rs:590-634 | splitting a live record or reusing a dead one writes only bytes of that record |
| `Ext2Dir.PutShows` | drivers/fs/ext2/src/inode.rs:554-641 | the listing gains the new entry at one place and keeps all others in order |
| `Ext2Dir.ShownWhole` | drivers/fs/ext2/src/inode.rs:602-621 | the name is listed as given exactly when it has 1 to 255 bytes |
| `Ext2Dir.RemoveInBlock` | drivers/fs/ext2/src/inode.rs:695-731 | the first live record with the name is merged into the one before it or marked dead, in blocks of any size; the remaining records tile the block exactly when the merged length fits 16 bits |
| `Ext2Dir.ErasedLaid` | drivers/fs/ext2/src/inode.rs:712-727 | after a removal the remaining records tile the block exactly when the merged length fits 16 bits, as it does in every block below 64 KiB |
| `Ext2Dir.BigBlockLoses` | drivers/fs/ext2/src/inode.rs:712-721 | in a block of 64 KiB with two entries of 32 KiB, removing the second makes the length of the first zero, and the block lists nothing |
| `Ext2Dir.CutShows` | drivers/fs/ext2/src/inode.rs:712-727 | exactly the removed entry disappears from the listing |
| `Ext2Dir.NewBlockListed` | drivers/fs/ext2/src/inode.rs:644-667 | a new block lists its entry exactly when the block size is below 64 KiB; above, the 16-bit record length is zero and the block lists nothing |
| `Ext2Dir.Directory.ReadDirEntries` | drivers/fs/ext2/src/inode.rs:506-551 | returns the live entries of all blocks in order; holes list nothing |
| `Ext2Dir.Directory.AddEntry` | drivers/fs/ext2/src/inode.rs:554-675 | old entries plus the new one; a new block only when no record has room, and then the directory stays well formed exactly when block size and directory size fit their fields; failure changes nothing |
| `Ext2Dir.Directory.RemoveEntry` | drivers/fs/ext2/src/inode.rs:678-736 | the first record with the name goes and its inode is returned, with exactly that entry gone from the records; the bytes stay the layout of the records if and only if the merged length fits 16 bits; ENOENT exactly when there is none, and then nothing changes |
| `Ext2Pager.ScatterSnoc` | drivers/fs/ext2/src/inode.rs:101-103 | a request with one more segment is one more write after the others |
| `Ext2Pager.ScatterGrow` | drivers/fs/ext2/src/inode.rs:97-100 | a longer last segment is one more write after the others |
| `Ext2Pager.ReadExtent` | drivers/fs/ext2/src/inode.rs:25-40 | one request in device sectors writes the blocks of the extent to its segments |
| `Ext2Pager.FillPages` | drivers/fs/ext2/src/inode.rs:54-123 | reading whole extents leaves in memory what reading block by block leaves, for every block map, holes included, and pages anywhere |
| `Ext2Pager.PagesHoldFile` | drivers/fs/ext2/src/inode.rs:54-123 | every byte of every page filled is the byte of the file at that place |
| `Ext2Pager.OutsideKept` | drivers/fs/ext2/src/inode.rs:54-123 | memory outside the pages is left alone |
| `Ext2Pager.TryGetPage` | drivers/fs/ext2/src/inode.rs:193-255 | reads a page block by block; past the end of the file it is zero |
| `Ext2Pager.ReadersAgree` | drivers/fs/ext2/src/inode.rs:150-153 | under the guard of the fast path both readers give the bytes of the file, byte by byte |
| `Ext2Pager.RightIff` | drivers/fs/ext2/src/inode.rs:193-255 | for every page and block size, reading block by block gives the bytes of the file on every device and block map exactly when the page starts with a block and is part of it or made of whole blocks |
| `Ext2Pager.LargeBlocks` | drivers/fs/ext2/src/inode.rs:216-246 | with blocks larger than a page, that is exactly when the page starts its block |
| `Ext2Pager.MisalignedWrong` | drivers/fs/ext2/src/inode.rs:216-246 | for every other page there is a device on which the page differs from the file |
| `Ext2Pager.SecondPageWrong` | drivers/fs/ext2/src/inode.rs:216-246 | the second page of an 8 KiB block starts with the first byte of the block |
| `Sched.EnqueueKeeps` | kernel/src/sched/mod.rs:249-301 | putting a woken task into a run queue keeps the invariant |
| `Sched.WakeKeeps` | kernel/src/sched/mod.rs:411-426 | waking any task at any time keeps the invariant |
| `Sched.PreemptKeeps` | kernel/src/sched/mod.rs:546-578 | putting the running task back keeps the invariant |
| `Sched.YieldKeeps` | kernel/src/sched/mod.rs:581-623 | going to sleep, or staying ready when a wake came in, keeps the invariant |
| `Sched.PopKeeps` | kernel/src/sched/mod.rs:472-498 | one turn of the selection loop keeps the invariant |
| `Sched.StealKeeps` | kernel/src/sched/mod.rs:502-543 | taking a movable task from another CPU keeps the invariant and moves its load |
| `Sched.SwitchKeeps` | kernel/src/sched/mod.rs:738-792 | making the chosen task current keeps the invariant |
| `Sched.ReleaseKeeps` | kernel/src/sched/mod.rs:795-812 | releasing the previous context keeps the invariant |
| `Sched.StepKeeps` | kernel/src/sched/mod.rs:249-812 | every step of every CPU keeps the invariant |
| `Sched.AssertionsHold` | kernel/src/sched/mod.rs:901-929 | the debug assertions on load accounting hold wherever a step reaches them: a woken task is on no load, and every other task is on the load of the CPU that handles it, so no load underflows |
| `Sched.AddTaskParts` | kernel/src/sched/mod.rs:249-301 | the section of `add_task` on the state, and the rest of it for a task found ready or waiting, are `add_task` when nothing comes between |
| `Sched.LookKeeps` | kernel/src/sched/mod.rs:253-273 | the section on the state keeps the invariant, alone and at any time |
| `Sched.AddKeeps` | kernel/src/sched/mod.rs:276-298 | the rest of it keeps the invariant, at any time and whatever was seen before, if the task is queued already, or is counted nowhere and no other CPU has its context |
| `Sched.RunKeeps` | kernel/src/sched/mod.rs:249-944 | the invariant holds in every state of every run |
| `Sched.Safety` | kernel/src/sched/mod.rs:249-944 | in every interleaving from boot: a task is at most once in at most one run queue and `queued` says exactly that, a loaded context is queued only on its CPU and loaded on one CPU only, and each load is the number of tasks counted there |
| `Sched.AddTaskIff` | kernel/src/sched/mod.rs:249-301 | putting a woken task into the queue of a CPU keeps the invariant exactly when no other CPU has its context |
| `Sched.StealsUnstirred` | kernel/src/sched/mod.rs:523-541 | in every run from boot, a task that is stolen has no wake pending that could be lost |
| `SchedSections.SmallSim` | kernel/src/sched/mod.rs:249-340 | with the look of a wake at the state, the setting of the flag and the joining of a queue as separate critical sections, and the same for a preemption and a yield, every section but the joining is a step of the machine unless it sets a flag astray, and joining the queue is no step |
| `SchedSections.Refines` | kernel/src/sched/mod.rs:249-944 | with what is on its way counted as arrived, every run of these sections in which no flag is set astray is a run of the machine |
| `SchedSections.Safety` | kernel/src/sched/mod.rs:249-944 | in every such interleaving of these sections from boot: a task sits at most once in at most one run queue, counted there, and no CPU runs it meanwhile; `queued` says exactly that it sits in one or is on its way to one and it is never both; a loaded context goes only to the queue of its CPU; each load is the number of tasks counted there |
| `SchedSections.StrayBreaks` | kernel/src/sched/mod.rs:276-298 | from every state, a flag that is set on a task that is counted, or whose context another CPU has, and the joining that follows it put the task into a queue where it is not in line: the promise of `SchedSections.Safety` on queues fails |
| `SchedSections.SetIff` | kernel/src/sched/mod.rs:276-282 | setting the flag keeps what the sections need exactly when it is set already, or the task is counted nowhere and no other CPU has its context |
| `SchedSections.StaleWake` | kernel/src/sched/mod.rs:411-426 | a wake that chose its CPU, a run of the task elsewhere, and then the rest of the wake: the task is in the queue of one CPU while another has its context |
| `SchedWindows.MicroSim` | kernel/src/sched/mod.rs:249-543 | with taking out, clearing the flag and looking at the state as separate sections, a selection is the pop or steal of the machine when it looks at the state, and a wake that remembers what it saw is the look and later the flag of `SchedSections`, unless the flag is set too late |
| `SchedWindows.Refines` | kernel/src/sched/mod.rs:249-944 | every run of these sections in which no flag is set too late is a run of those of `SchedSections`, and so of the machine |
| `SchedWindows.Safety` | kernel/src/sched/mod.rs:249-944 | in every such run from boot a task sits at most once in at most one run queue, marked and counted there, and no CPU runs it or has taken it out; `queued` says exactly that it sits in a queue, is on its way to one, or was taken out and is not yet cleared; only the CPU that has its context may have it queued, two CPUs never have it loaded, and each load is the number of tasks counted there |
| `SchedWindows.LateBreaks` | kernel/src/sched/mod.rs:276-298 | from every state, a flag that is set too late, and the sections that follow in any case, put the task into a queue where it is not in line: the promise of `SchedWindows.Safety` on queues fails |
| `SchedWindows.FlagIff` | kernel/src/sched/mod.rs:276-282 | setting the flag keeps what the sections need exactly when it is not too late: it is set already, or the task is counted nowhere and no other CPU has its context |
| `SchedWindows.WindowReached` | kernel/src/sched/mod.rs:475-497 | a run from boot after which the flag of a wake is too late, both before and after the selecting CPU looks at the state |
| `SchedWindows.Straddle` | kernel/src/sched/mod.rs:253-282 | a run from boot in which a task is selected between the look of a wake and its flag, and from there two CPUs come to have its context loaded |
| `SchedCode.System.WakeTask` | kernel/src/sched/mod.rs:411-426 | the code on tasks, counters and run queues makes the wake step and keeps the invariant |
| `SchedCode.System.Reschedule` | kernel/src/sched/mod.rs:546-578 | the code on tasks, counters and run queues makes the preemption step and keeps the invariant |
| `SchedCode.System.Yield` | kernel/src/sched/mod.rs:581-623 | the code on tasks, counters and run queues makes the yield step and keeps the invariant |
| `SchedCode.System.PopOne` | kernel/src/sched/mod.rs:475-497 | popping the bit-mapped run queue and dealing with the task is a pop step of the machine, and nothing comes out exactly when the queue is empty |
| `SchedCode.System.Next` | kernel/src/sched/mod.rs:472-498 | the loop ends, it is a run of pop steps, and it ends with a task chosen or the queue empty |
| `SchedCode.System.FindVictim` | kernel/src/sched/mod.rs:503-519 | the first of the busiest other CPUs, exactly when they are busier by more than the threshold |
| `SchedCode.System.TrySteal` | kernel/src/sched/mod.rs:502-543 | taking a movable task out of the run queue of the victim is a steal step of the machine; the CPU goes idle exactly when there is no victim or it has nothing to offer |
| `SchedCode.System.SwitchTo` | kernel/src/sched/mod.rs:738-770 | the code makes the switch step and keeps the invariant |
| `SchedCode.System.PostSwitch` | kernel/src/sched/mod.rs:795-798 | the code makes the release step and keeps the invariant |
| `RunQueue.FindBitFrom` | kernel/src/sched/mod.rs:94-117 | the first queue with a task in cyclic order, and none exactly when all are empty |
| `RunQueue.PopAt` | kernel/src/sched/mod.rs:119-125 | the oldest task of the queue comes out, and the status bit stays exact |
| `RunQueue.TakeMigratable` | kernel/src/sched/mod.rs:127-147 | the first task that may move comes out, from anywhere in the queue, and only it |
| `RunQueue.StealFrom` | kernel/src/sched/mod.rs:149-159 | a task that may move comes out exactly when the class has one: the first such of the first queue, cyclically from the start, that has one |
| `RunQueue.RunQueue.Push` | kernel/src/sched/mod.rs:189-201 | the task comes last in the order of arrival, with its class and a place, and nothing else changes |
| `RunQueue.RunQueue.PopNext` | kernel/src/sched/mod.rs:203-215 | the next task by rank, and by arrival among equals, comes out, none exactly when there is none, and the rest stays in its order |
| `RunQueue.LessWaits` | kernel/src/sched/mod.rs:191-214 | after one task has come and gone, a task that used less of its time waits for one that came later and used more |
| `RunOrder.NextMeans` | kernel/src/sched/mod.rs:191-222 | who comes out next: a timeshare task only if there is no real-time task, an idle one only if all are idle; among real-time tasks one of least priority, and of these, as among idle ones, the one that came first |
| `RunOrder.NextIs` | kernel/src/sched/mod.rs:203-222 | searching the classes in order, and each from its start, finds that task |
| `RunOrder.NoOvertaking` | kernel/src/sched/mod.rs:203-231 | the place for removal passes only places where no task waits, so of two tasks that wait neither overtakes the other |
| `RunOrder.LessFirstIff` | kernel/src/sched/mod.rs:191-199 | of two timeshare tasks the one that used less of its time is placed first, whatever the two are, exactly when adding is at most one place ahead of removing |
| `RunQueue.RunQueue.TakeStealable` | kernel/src/sched/mod.rs:217-222 | the next of the tasks that may move, by the same order, comes out, and none exactly when none may |
| `RunQueue.RunQueue.AdvanceTimeshare` | kernel/src/sched/mod.rs:224-231 | the indices move on together, and the one for removal waits until its queue is empty |
| `Events.WaiterWoken` | kernel/src/util/event.rs:92-96 | the wake that an event calls leaves the task ready and queued, or pending to stay ready |
| `Events.WaiterFlagged` | kernel/src/sched/mod.rs:276-298 | so does the second half of such a call when other steps came after the first |
| `Events.ListsFire` | kernel/src/util/event.rs:87-102 | the waiter list of an event stays exactly its guarded tasks not yet woken |
| `Events.MachineKeeps` | kernel/src/util/event.rs:167-172 | every scheduler step that does not preempt between test and sleep keeps what the protocol needs |
| `Events.EStepKeeps` | kernel/src/util/event.rs:44-183 | every step of guards, events and scheduler that does not intrude keeps the invariant |
| `Events.NoLostWake` | kernel/src/util/event.rs:44-183 | in every run from boot without an intruding preemption, the calls of `wake_task` whole or in two halves, no task whose event fired and finished its wake stays waiting or ready outside the queues, and each list holds exactly the guarded tasks not yet woken |
| `Events.WakeN` | kernel/src/util/event.rs:87-118 | the first waiters up to the count are flagged and woken in turn, no other is touched, and it is a run of the machine; a count that covers the list is `wake_all` |
| `Events.FirstCome` | kernel/src/util/event.rs:44-102 | in every run from boot, of two tasks that wait for an event and have not been woken the one that registered first stands first, so those woken are those that have waited longest |
| `Events.IntrusionLoses` | kernel/src/sched/mod.rs:267-282 | from every state in which a task has found its flag unset and is the next to be woken, a preemption before it sleeps has a continuation that loses the wake |
| `Events.LostWake` | kernel/src/util/event.rs:167-172 | a run from boot on one CPU that loses a wake |
| `Pmm.RunInRegion` | kernel/src/memory/pmm.rs:71-125 | consecutive free frames lie in one region of the list |
| `Pmm.Canonical` | kernel/src/memory/pmm.rs:71-125 | the regions are determined by the set of free frames |
| `Pmm.SameRecords` | kernel/src/memory/pmm.rs:71-199 | two lists with the same free frames agree in every page record, so allocating and freeing again restores the list exactly |
| `Pmm.SuitsIff` | kernel/src/memory/pmm.rs:169-174 | some region passes the test of `alloc` exactly when enough consecutive free frames end below the limit |
| `Pmm.Unlimited` | kernel/src/memory/pmm.rs:148-199 | without a limit, that is exactly when enough consecutive free frames exist |
| `Pmm.LimitExceeded` | kernel/src/memory/pmm.rs:169-197 | a limited allocation can return frames above its limit although lower ones are free |
| `Pmm.Pmm.FindPlace` | kernel/src/memory/pmm.rs:75-82 | the walk stops at the place of the region in the sorted list |
| `Pmm.Pmm.Link` | kernel/src/memory/pmm.rs:85-123 | the records written, in all four cases of joining with the neighbours |
| `Pmm.Pmm.FreeRegion` | kernel/src/memory/pmm.rs:71-125 | exactly the given frames become free; the list stays sorted, disjoint and coalesced with all other records cleared |
| `Pmm.Pmm.Choose` | kernel/src/memory/pmm.rs:160-178 | the last region that suits without a limit, the first one with a limit |
| `Pmm.Pmm.Unlink` | kernel/src/memory/pmm.rs:181-199 | the records written when the tail of a region or a whole region is taken |
| `Pmm.Pmm.Alloc` | kernel/src/memory/pmm.rs:148-199 | succeeds exactly when enough consecutive free frames end below the limit; the frames were all free, and exactly they stop being free; the address bound holds exactly when the region that the list had ready for it ends within the limit |
| `Pmm.Pmm.Dealloc` | kernel/src/memory/pmm.rs:130-143 | exactly the given frames become free; nothing for an empty allocation |
| `Pmm.Pmm.constructor` | kernel/src/memory/pmm.rs:243-265 | exactly the whole pages of the usable entries of the memory map become free |
| `PageCache.InstallKeeps` | kernel/src/memory/cache.rs:350-366 | a frame that arrives late is freed if its page is cached by now, and no step changes the file view |
| `PageCache.PagedMemoryObject.Plan` | kernel/src/memory/cache.rs:313-333 | the read-ahead window doubles up to its limit while pages are asked for in order and starts again otherwise; the request is cut exactly at the next cached page |
| `PageCache.PagedMemoryObject.InstallBatch` | kernel/src/memory/cache.rs:348-366 | while other threads hold frames in flight, the view stays, every frame of the batch is in the map or freed, and the pages of the batch are cached |
| `PageCache.PagedMemoryObject.TryGetPage` | kernel/src/memory/cache.rs:308-368 | read-ahead changes no byte of the view; it succeeds exactly when the page is cached or the pager answers, for the window or for the page alone; what is cached afterwards is exact |
| `PageCache.PagedMemoryObject.Read` | kernel/src/memory/cache.rs:216-236 | returns the bytes of the view at the offset, as far as the file goes; it succeeds exactly when it meets no page that cannot be had |
| `PageCache.PlainThrough` | kernel/src/memory/cache.rs:216-236 | without read-ahead a copy gets through exactly when each of its pages is cached or can be read in |
| `PageCache.PagedMemoryObject.WritePiece` | kernel/src/memory/cache.rs:243-256 | changes exactly the bytes of one piece of one page |
| `PageCache.PagedMemoryObject.WriteFile` | drivers/fs/ext2/src/inode.rs:413-425 | changes exactly the bytes up to the first page that cannot be had, and succeeds exactly when there is none; then exactly the pages of those bytes become dirty; every page that is not dirty is in step with the pager exactly when it succeeded or the bytes changed lie in pages dirty before |
| `PageCache.PagedMemoryObject.Run` | kernel/src/memory/cache.rs:82-162 | in every history of reads, writes, syncs and direct reads in which no write can fail half way, direct reads return what cached reads return |
| `PageCache.PagedMemoryObject.Writeback` | kernel/src/memory/cache.rs:103-120 | the view stays, exactly the cached pages that the pager refuses are dirty again, and exactly the others of them are written |
| `PageCache.PagedMemoryObject.Sync` | kernel/src/memory/cache.rs:82-88 | the view stays, and what is dirty afterwards is exactly what was refused |
| `PageCache.PagedMemoryObject.SyncRange` | kernel/src/memory/cache.rs:90-101 | the view stays; inside the range exactly the dirty pages that the pager takes are written, and exactly those it refuses stay dirty; outside nothing is written or unmarked; it fails exactly when one is refused |
| `PageCache.PagedMemoryObject.ReadDirect` | kernel/src/memory/cache.rs:122-162 | returns what a cached read returns, if every page that is not dirty is in step with the pager, and keeps no frame; it succeeds exactly when no dirty page of the range is refused and each batch can be read, and writes nothing outside the range |
| `PageCache.PagedMemoryObject.CopyBatch` | kernel/src/memory/cache.rs:145-154 | the copy loop over the frames of a batch yields the flat bytes |
| `PageCache.FailedWriteUnseen` | drivers/fs/ext2/src/inode.rs:413-425 | a write fails at its second page; its first byte is seen by a cached read and not by a direct one |
| `CacheThreads.StepKeeps` | kernel/src/memory/cache.rs:308-368 | each step of any thread - filling a frame, installing or freeing one, writing a cached page, writing it back - keeps frames in flight harmless and changes the view only by a write |
| `CacheThreads.RunView` | kernel/src/memory/cache.rs:308-368 | in every interleaving the users see the writes to cached pages in their order, and nothing else |
| `CacheThreads.InstallLate` | kernel/src/memory/cache.rs:346-366 | a batch installed after any run of other threads leaves the view that those writes made |
| `Nvme.StepAhead` | drivers/block/nvme/src/queue.rs:397-401 | the ring position wraps and the phase turns together |
| `Nvme.PhaseTest` | drivers/block/nvme/src/queue.rs:383-392 | the phase test at the head is true exactly when an unconsumed completion is there, in every round |
| `Nvme.FewQueued` | drivers/block/nvme/src/queue.rs:304-351 | commands waiting to be fetched have different ids, so the submission ring cannot overrun |
| `Nvme.FewPosted` | drivers/block/nvme/src/queue.rs:378-440 | completions waiting to be drained have different ids, so the completion ring cannot overrun |
| `Nvme.AllReportedOnce` | drivers/block/nvme/src/queue.rs:304-440 | once all is answered and drained, every command ever queued has been reported to its request exactly once |
| `Nvme.IoQueue.constructor` | drivers/block/nvme/src/queue.rs:234-286 | all ids free, phase one, rings empty |
| `Nvme.IoQueue.Acquire` | drivers/block/nvme/src/queue.rs:353-360 | an id comes out exactly when one is free, and its slot is empty |
| `Nvme.IoQueue.Fill` | drivers/block/nvme/src/queue.rs:307-314 | the slot of a held id takes the request |
| `Nvme.IoQueue.Abort` | drivers/block/nvme/src/queue.rs:324-335 | the id and the request come back when the command was not written |
| `Nvme.IoQueue.WriteSqe` | drivers/block/nvme/src/queue.rs:338-351 | no waiting command is overwritten, and a full ring does not look empty |
| `Nvme.IoQueue.DeviceFetch` | drivers/block/nvme/src/queue.rs:338-351 | the controller finds the next queued command exactly when there is one |
| `Nvme.IoQueue.DevicePost` | drivers/block/nvme/src/queue.rs:383-401 | no waiting completion is overwritten |
| `Nvme.IoQueue.DrainOne` | drivers/block/nvme/src/queue.rs:383-425 | consumes the oldest completion and reports to the request that queued that command |
| `Nvme.IoQueue.Drain` | drivers/block/nvme/src/queue.rs:378-440 | ends, with every posted completion consumed and reported in order |
| `Virtqueue.SlotsConsistent` | drivers/common/virtio/src/lib.rs:206-215 | ring slots follow the 16-bit indices through every wrap exactly when the queue size divides 65536 |
| `Virtqueue.FewAvailable` | drivers/common/virtio/src/lib.rs:175-218 | offered chains have different heads, so no offer is overwritten |
| `Virtqueue.FewUsed` | drivers/common/virtio/src/lib.rs:249-265 | returned chains have different heads, so no return is overwritten |
| `Virtqueue.OfferChains` | drivers/common/virtio/src/lib.rs:184-203 | taking descriptors for a chain keeps free descriptors and chains a partition |
| `Virtqueue.ReturnKeeps` | drivers/common/virtio/src/lib.rs:221-240 | giving a chain back keeps free descriptors and chains a partition |
| `Virtqueue.VirtQueue.AddBuffer` | drivers/common/virtio/src/lib.rs:175-218 | the chain holds the given buffers linked in order, their lengths cut to 32 bits; EINVAL and EBUSY exactly when empty or too long, and then nothing changed |
| `Virtqueue.Narrow` | drivers/common/virtio/src/lib.rs:201-202 | the device sees the buffers as given exactly when all are below 4 GiB |
| `Virtqueue.VirtQueue.SetDescs` | drivers/common/virtio/src/lib.rs:190-203 | the descriptors of the chain are written and no other |
| `Virtqueue.VirtQueue.DeviceTake` | drivers/common/virtio/src/lib.rs:205-215 | the device finds the next offered chain exactly when there is one, with the buffers that were given |
| `Virtqueue.VirtQueue.DeviceUse` | drivers/common/virtio/src/lib.rs:249-265 | a returned chain overwrites no return that waits |
| `Virtqueue.VirtQueue.HasUsed` | drivers/common/virtio/src/lib.rs:243-246 | true exactly when a returned chain waits, across any number of wraps |
| `Virtqueue.VirtQueue.GetUsed` | drivers/common/virtio/src/lib.rs:249-265 | yields the returned chains in order |
| `Virtqueue.VirtQueue.ReleaseUsedChain` | drivers/common/virtio/src/lib.rs:221-240 | ends, and frees exactly the descriptors that `add_buffer` took for the chain |
| `InitGraph.Counted` | kernel/src/boot/initgraph.rs:202-207 | a successor's counter is never zero when an edge to it is followed |
| `InitGraph.RankReached` | kernel/src/boot/initgraph.rs:161-229 | with nothing left to do every wanted node of an acyclic graph is done |
| `InitGraph.OrderRanks` | kernel/src/boot/initgraph.rs:161-229 | if every wanted node was reached, the wanted part of the graph is acyclic |
| `InitGraph.CycleBlocked` | kernel/src/boot/initgraph.rs:222-228 | no node of a cycle is ever done |
| `InitGraph.Graph.Register` | kernel/src/boot/initgraph.rs:49-53 | the counter of the target counts the edge |
| `InitGraph.Graph.Mark` | kernel/src/boot/initgraph.rs:164-179 | exactly the goal and the nodes with a path to it become wanted, and wanted nodes have wanted sources |
| `InitGraph.Graph.OnReached` | kernel/src/boot/initgraph.rs:113-131 | its three assertions hold; the action runs exactly when the node is not disabled |
| `InitGraph.Graph.FollowEdges` | kernel/src/boot/initgraph.rs:200-219 | counters, disabling and the worklist are exact after the edges of a node; the assertion inside holds |
| `InitGraph.Graph.Execute` | kernel/src/boot/initgraph.rs:161-229 | each node is reached at most once and after its sources, its action runs exactly when no disabled source reaches it over a propagating edge, and the final assertion holds exactly when the wanted part has no cycle |
| `Signals.TakeLowest` | kernel/src/process/signal.rs:477-481 | the lowest signal that is allowed, with the information it was first sent with |
| `Signals.DiscardClears` | kernel/src/process/signal.rs:561-581 | a send removes the opposite signals from every queue and adds none |
| `Signals.Process.PrepareSignal` | kernel/src/process/signal.rs:535-585 | opposites leave every queue even if the signal is then dropped; it is dropped exactly when ignored, catchable and not blocked |
| `Signals.Process.SendToThread` | kernel/src/process/signal.rs:588-599 | the opposites leave every queue, the signal joins the queue of the thread unless it is dropped, nothing else changes, and SIGCONT and a stop signal are not both pending if they were not before |
| `Signals.Process.SendToProcess` | kernel/src/process/signal.rs:608-643 | the same for signals sent to the process, which join the shared queue; false exactly when it has no thread |
| `Signals.Process.ForceSignal` | kernel/src/process/signal.rs:669-683 | the signal of a fault is pending, not blocked and not ignored, its action is reset exactly when it was ignored or blocked, and nothing else changes |
| `Signals.Process.SigSuspend` | kernel/src/syscall/signal.rs:229-239 | the earlier mask is saved |
| `Signals.Process.PrepareNext` | kernel/src/process/signal.rs:747-826 | a stopped process waits; a running one takes the lowest unblocked signal of the thread's own queue if it has one and of the shared queue otherwise, and none exactly when there is none; a caught signal is delivered with the mask from before a `sigsuspend` staged, a fatal one ends the process, a stop stops it, and only ignored ones are passed over |
| `Signals.EnteredBlocks` | kernel/src/process/signal.rs:803-816 | in a handler exactly the signals are blocked that were so before or that it asks for, and the signal itself unless it is not deferred; SIGKILL and SIGSTOP never are |
| `Signals.Process.DeliverPending` | kernel/src/process/signal.rs:828-862 | the loop ends; without a handler nothing unblocked is pending and the earlier mask is back; with one, that mask is the one staged for its return; every signal that left a queue was ignored, or is the one that was delivered, stopped or ended the process, and all others are pending as before |
| `Signals.InterleavedSends` | kernel/src/process/signal.rs:588-599 | two sends whose critical sections interleave leave SIGCONT and SIGSTOP both pending |
| `SignalRace.Exclusive` | kernel/src/process/signal.rs:535-643 | in every interleaving of any number of sends, queue by queue, and of deliveries, SIGCONT and a stop signal are both pending only if two opposite sends have each cleared the queue of the other before the other joined it |
| `SignalRace.TwoSends` | kernel/src/process/signal.rs:535-643 | for two opposite sends that are queued and not delivered, both are pending exactly when they have crossed so |
| `SignalRace.InTurnExclusive` | kernel/src/process/signal.rs:535-643 | if no send begins while an opposite one is under way, SIGCONT and a stop signal are never both pending |
| `SignalRace.ClearAllIs` | kernel/src/process/signal.rs:559-581 | the clearing of one queue after another without interruption is what `prepare_signal` does |
| `Timers.NextIsFirst` | kernel/src/vfs/timerfd.rs:111-119 | the next deadline is the first one after now |
| `Timers.PollCounts` | kernel/src/process/itimer.rs:117-147 | a poll counts the moments at which the timer was due, each once, a one-shot timer once; what is due later stays so |
| `Timers.AdvCounts` | kernel/src/vfs/timerfd.rs:95-124 | an advance counts the same moments if 64 bits can, and a one-shot timer fires once |
| `Timers.PollTwice` | kernel/src/process/itimer.rs:117-147 | two polls count and end as the later one alone |
| `Timers.PollsCompose` | kernel/src/process/itimer.rs:117-147 | polling at any increasing times gives the total and the phase of one poll at the last time |
| `Timers.CappedIff` | kernel/src/vfs/timerfd.rs:112-119 | the division form has the right next deadline exactly when the count fits 32 bits; otherwise the deadline it sets has passed already |
| `Timers.CountedTwice` | kernel/src/vfs/timerfd.rs:112-119 | a timer of one nanosecond that is looked at after 2^32 of them gets a deadline two behind, and the next look counts these two again |
| `Timers.AdvancesCompose` | kernel/src/vfs/timerfd.rs:95-124 | advances at any increasing times count as often as the timer is due exactly when each count but the last fits 32 bits; otherwise they count too much |
| `Timers.IntervalTimers.Expire` | kernel/src/process/itimer.rs:117-147 | the stepping loop computes the closed form and disarms when the next deadline is not a time |
| `Timers.IntervalTimers.Set` | kernel/src/process/itimer.rs:24-34 | the global counter is the number of armed timers |
| `Timers.IntervalTimers.Replace` | kernel/src/process/itimer.rs:54-73 | arms or disarms as asked and keeps the counter exact on every path, failures included |
| `Timers.IntervalTimers.Disarm` | kernel/src/process/itimer.rs:76-80 | disarms and keeps the counter exact |
| `Timers.Timerfd.SetTime` | kernel/src/vfs/timerfd.rs:62-87 | pending expirations are dropped |
| `Timers.Timerfd.Advance` | kernel/src/vfs/timerfd.rs:95-124 | the new deadline and count in every case, saturation and the panic of the addition included; equal to the closed form while the count fits 32 bits |
| `Timers.Timerfd.Read` | kernel/src/vfs/timerfd.rs:140-154 | hands out exactly what was counted and not read |
| `Timers.Timerfd.Reads` | kernel/src/vfs/timerfd.rs:140-154 | the reads of any increasing times add up to the number of times the timer was due exactly when each count but the last fits 32 bits |
| `Pipe.HeldGrows` | kernel/src/util/ring.rs:31-48 | bytes put after the write cursor come after the ones held, around the wrap |
| `Pipe.HeldShrinks` | kernel/src/util/ring.rs:22-27 | moving the read cursor takes bytes off the front, around the wrap |
| `Pipe.RingBuffer.Write` | kernel/src/util/ring.rs:31-48 | as much as fits joins the end |
| `Pipe.RingBuffer.Peek` | kernel/src/util/ring.rs:50-65 | the oldest bytes, unchanged |
| `Pipe.RingBuffer.Read` | kernel/src/util/ring.rs:22-27 | the oldest bytes leave the ring |
| `Pipe.IovecIter.Skip` | kernel/src/memory/iovec.rs:98-119 | moves by as much as there is, over buffers of any length, empty ones included |
| `Pipe.IovecIter.SetOffset` | kernel/src/memory/iovec.rs:121-127 | the position is the offset, or the end |
| `Pipe.IovecIter.CopyToSlice` | kernel/src/memory/iovec.rs:199-232 | yields the next bytes of the concatenated buffers; it fails exactly when one of them cannot be read, and then the position is as before |
| `Pipe.IovecIter.CopyFromSlice` | kernel/src/memory/iovec.rs:164-197 | replaces the next bytes of the concatenated buffers up to the first that cannot be written; it fails exactly when there is one, and then the position is as before |
| `Pipe.PipeBuffer.Register` | kernel/src/vfs/pipe.rs:64-95 | the counts of readers and writers are those of the open endpoints |
| `Pipe.PipeBuffer.Close` | kernel/src/vfs/pipe.rs:140-157 | the counts stay exact |
| `Pipe.PipeBuffer.Read` | kernel/src/vfs/pipe.rs:161-196 | the oldest bytes leave the pipe; the read faults exactly when one of them cannot be written, and then they reach nobody; without faults all bytes taken were delivered; it would block exactly when the pipe is empty with a writer open |
| `Pipe.PipeBuffer.Write` | kernel/src/vfs/pipe.rs:198-235 | the first bytes of the concatenated buffers, as far as they fit, are accepted; broken exactly when no reader is open, a fault exactly when one of those bytes cannot be read, blocking exactly when the pipe is full |
| `Pipe.BytesLost` | kernel/src/vfs/pipe.rs:161-196 | a byte is written, a read that cannot store it faults, and the next read finds the pipe empty |

## Left out

- Hardware access, address translation, context switching and memory ordering: atomics are modelled at the
  granularity of the critical sections that use them.
- I/O errors in the ext2 block map, and the inode bitmap and `free_inode`: the bitmaps and the inode table are kept
  apart from the block array, and reads and writes of them succeed.
- Ext2.Ext2Super.AllocBlockForInode: the sector count of an inode is not cut to 32 bits; `Ext2State.SectorsFit` shows
  that this makes no difference on volumes below 2 TiB.  Fields of the inode other than type, size, sector count and
  pointers are left out.
- Ext2.Ext2Super.FreeInodeData: the inode bitmap and the count of used directories are left out.
- Ext2.Ext2Super.FreeEntries: `free_block_tree` is modelled as `free_subtree`, which does the same and counts.
- Ext2Dir.Directory.AddEntry: a name longer than a block makes the original stop with an index error, so it is excluded;
  the allocation of a new block is a parameter.
- Ext2Dir.Directory.RemoveEntry: 16-bit sums wrap, as they do in a release build; a debug build stops instead.
- The rest of the ext2 directory operations (lookup, create, rename and so on), which call the three modelled here.
- Sched.Safety: which task a run queue gives out, which CPU is preferred and when a CPU preempts or steals are left open,
  all CPUs are online, and time slices and interactivity scores, which decide the class of a task, are not modelled.
- RunOrder.NextMeans: what it says of timeshare tasks is their place; no bound on how long one waits is given.
- Sched.WakeKeeps: a wake is one step; its sections are steps of their own in `SchedSections` and `SchedWindows`, where
  the CPU that a wake goes to was chosen at any time before.
- SchedWindows.MicroSim: what `next` and `try_steal` do after their section on the state, to `wake_pending` and the
  load, is part of that section.
- Events.EStepKeeps: guards and wakes are put on top of the steps of `Sched`: a flag is not set too late, and setting it
  and joining the queue are one step.
- `spawn_kernel_async`, which adds a task a second time, and the nudging of the reaper task.
- Events.NoLostWake: a task has one guard at a time; observers and forwarding between events are left out.
- RunQueue.FindBitFrom: the status word is a sequence of bits, and counting its trailing zeros is a loop over them.
- Pmm.Pmm.Alloc: zeroing the memory is left out.
- `PagedMemoryObject::truncate`, `copy` and `make_private`, and pagers that are not one flat file.
- PageCache.PagedMemoryObject.WriteFile: allocation of blocks and the change of the file size before the write are part of
  the block map model, not of this one.
- Nvme.IoQueue.WriteSqe: the contents of a command other than its id, interrupts, the head doorbell and the waiting for a
  free slot are left out; timeouts that complete a request elsewhere are not modelled.
- Virtqueue.VirtQueue.AddBuffer: reads and writes of the shared memory succeed; a failure half way, which would keep
  descriptors, is left out.
- InitGraph.Graph.Execute: edges are registered before the first execution; what the actions do is left out.
- Signals.Process.DeliverPending: restart of system calls, the signal frame, alternate stacks and the notification of the
  parent are left out; `Wait` stands for blocking until a SIGCONT.
- Re-queueing a signal after a failed copy to the user, and the flush when a disposition becomes ignore.
- Pipe.IovecIter.CopyFromSlice: a copy stops at the first byte that cannot be accessed, as the byte-wise copy
  instruction of x86-64 does.
- Pipe.PipeBuffer.Read: blocking is left to the caller, who tries again; the opening of FIFOs and polling are left out.
- Pipe.IovecIter.Skip: a list without any buffer, on which the original stops with an index error, is excluded, and
  buffers do not overlap.
- Pipe.RingBuffer.Write: the capacity is the length of the buffer, which is what the allocation asks for.
- Slab allocation, epoll, the path cache, the command line parser and module loading, which would add lighter versions of
  proofs that are here.
