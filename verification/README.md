# A verified model of the Linux 0.01 kernel core

This project models the parts of Linux 0.01 that keep state shared between tasks, and proves what they
promise.  It is written in Dafny; `dafny verify dfyconfig.toml` checks all of it.

The kernel is not preemptive: a timer tick that interrupts kernel mode never reschedules
(kernel/sched.c:195), so a task loses the processor only where it calls `sleep_on` or `schedule`.  Where tasks
share state across such places (`PagingMachine`, `BufferSharing`, `WaitQueue`, `Scheduler`, `Pipe`), a step of the
model is the code between two of them, and a run is any interleaving of these steps.  Two models are not of
this kind: a call on a device of `FileSystem` and a call on the sequential `BufferCache` is one step although
the source sleeps inside it, so there calls are run one at a time (see "Left out").

A run assumes its invariant of the first state only; that it holds in all others is proved (`InvAlways`).
For the paging code the steps are in `PagingMachine`, the proof that the code makes only such steps in
`PagingRuns`, and what follows for all runs in `PagingLaws`.
Each core is modelled twice: as a class whose methods do what the C functions do, with the same branches,
loops and constants, and as a value (`State`) with step functions and an invariant.  The methods are proved
to compute the steps; the properties are proved about all steps and, by induction, about all runs.

| files | what they model | main results |
|---|---|---|
| `Counting`, `PagingState`, `PagingSteps`, `PagingCounts`, `Paging`, `TaskFrames`, `TaskMemory`, `PagingMachine`, `PagingRuns`, `PagingLaws` | copy-on-write memory: mem_map, page tables, fork, faults, verify_area, exec, exit | every run refines one private memory per task, and fails exactly when frames are short (`Run`, `Isolation`, `LoadReturnsLastStore`, `Determined`); a verified page stays verified while its task sleeps (`PutAfterVerify`); a failed fork is undone exactly; what each task reads, word by word (`ForkReads`, `FirstChildLoads`, `OthersRead`) |
| `FileState`, `FileSteps`, `FileSystem`, `FileRuns` | block map, zone bitmap, truncate, file reads and writes | files are flat byte arrays through all three levels (`FilesAreByteArrays`, `ReadFindsLastWrite`); a zone is used if and only if it is reachable, by one path; the block map in bytes (`Bmap`) |
| `BufferState`, `BufferSteps`, `BufferCache`, `BufferRuns`, `BufferSharing` | the buffer cache, sequentially and with a task switch at every sleep | coherence with the disk over all lists of calls (`BufferRuns.Run`, `SysSync`); uniqueness and stable identity over all interleavings (`NeverTwice`, `HeldBufferStays`) |
| `WaitQueue` | `sleep_on` and `wake_up` | no lost sleeper (`OneWakerEach`, `WakeUpReachesAll`) |
| `Scheduler` | `schedule`, `do_timer`, `sys_nice` | at most one recharge, maximal counter, a bound on the wait of every runnable task (`WaitIsBounded`), the credit of sleepers (`SleepersCredit`) |
| `DiskOrder`, `HardDisk` | the request queue and the interrupt machine of the hard disk | two sweeps at most (`AlwaysTwoSweeps`), bounded interrupts (`InterruptsAreBounded`), every request ends (`EveryRequestEnds`), every report is true (`ReportsAreTrue`) |
| `ConsoleGrid`, `ConsoleLaws`, `ConsoleCommands`, `ConsoleMemory`, `Console` | the VT102 console on its sliding window | for every byte stream the window is a 25 by 80 grid (`ConWrite`); what every control character and sequence does to it, in lines and columns (`ConsoleCommands`) |
| `ExecArgs`, `ExecTables` | the argument pages and tables of `execve` | the program reads back its arguments (`NewStack`, `OneVector`) |
| `DescriptorState`, `Descriptors` | file table reference counts | counts are exact over all runs (`Run`) |
| `Pipe` | pipes | a lossless bounded queue whose ends never both sleep (`Fifo.Run`) |
| `Processes`, `NumberFormat` | process numbers; `number` of vsprintf | fresh numbers across the wrap; every field character by character (`FieldIs`, `DigitsAre`) and digits that read back |

## Where the code differs from what it seems to promise

- `add_request` keeps at most two sweeps only for requests at different places.  `SamePlaceCostsASweep` is a
  queue where two requests for one place cost a third, and `ThirdSweepIsReached` makes it from an idle disk,
  with five buffers: a block of a partition and the block of the whole disk over it (minor 0) have two buffers;
  `TwoSweepsExactly` says for all queues, by the positions in them, when two sweeps stay two.
- `copy_strings` tests `p-len < 0` on an unsigned value (fs/exec.c:175), so the test never fires and strings
  that do not fit end in the "nonexistent page" panic or past the page table.  The same wrap is reached when
  the environment runs out of pages and there are arguments, because the second call starts from 0.
  `PrepareArgs` says exactly when either happens, for any strings and any number of free frames (`Derails`);
  strings that fit go wrong if and only if there is an argument and the frames do not last for the
  environment (`WhenDerailed`).  `PanicIsReached` gives two inputs.
- Strings that fill the argument pages exactly make `p` 0 and are rejected as if copying had failed.
- `ESC 7` and `ESC 8` test the column instead of the character (kernel/console.c:467-470): they save and restore
  the cursor exactly in columns 55 and 56 (`SavesInColumn55`, `RestoresInColumn56`).
- A failed fork gives back every frame, but the parent keeps its pages read-only until its next writes.
- `dup2` of a descriptor onto itself closes it.
- `do_no_page` leaves a frame counted without an owner when `put_page` fails; `DoNoPage` says exactly when.
- The store at fs/buffer.c:103 is modelled with the guard `b_next != NULL` that it needs.
- Cursor moves are computed in unsigned 32-bit numbers, so `ESC [ 4294967295 A` moves a line down (`CursorUp`); from
  behind a full line the vertical moves do nothing, and `ESC E` on the last line neither scrolls nor goes to its start
  (`NextLineStart`).
- A child of task 0 gets page 0 of the memory too, which is the page directory that the kernel keeps writing to.

## Model

| member | source | states |
|---|---|---|
| `PagingState.TableFrameIsPrivate` | linux-0.0.1/mm/memory.c:213-235 | in every state of the invariant a page-table frame belongs to one directory entry and to nothing else |
| `PagingState.DirsInjective` | linux-0.0.1/mm/memory.c:232-234 | two directory entries never share a page table |
| `PagingState.DataFrameIsNoTable` | linux-0.0.1/mm/memory.c:236-247 | a mapped frame is never a page table |
| `PagingState.DataFrameIsNotHeld` | linux-0.0.1/mm/memory.c:260-281 | a mapped frame is not owned by the kernel at the same time |
| `PagingState.SoleOwner` | linux-0.0.1/mm/memory.c:288-290 | a frame counted once is mapped by exactly the entry in hand, so un_wp_page may set its write bit without a copy |
| `PagingState.CountBelowTasks` | linux-0.0.1/mm/memory.c:46 | a frame has at most one entry per task, so the 16-bit mem_map count cannot wrap |
| `PagingSteps.AllocStep` | linux-0.0.1/mm/memory.c:52-124 | taking a free frame keeps all accounting and changes no task's view |
| `PagingSteps.ReleaseStep` | linux-0.0.1/mm/memory.c:130-160 | giving back a frame the kernel holds keeps all accounting and changes no task's view |
| `PagingSteps.LinkDirStep` | linux-0.0.1/mm/memory.c:232-234 | entering a new page table keeps the invariant and maps nothing |
| `PagingSteps.UnlinkDirStep` | linux-0.0.1/mm/memory.c:189-190 | dropping an empty page table keeps the invariant and unmaps nothing else |
| `PagingSteps.LinkPteStep` | linux-0.0.1/mm/memory.c:266-280 | mapping a held frame makes exactly that one page present and private, and keeps every count exact |
| `PagingSteps.ClearPteStep` | linux-0.0.1/mm/memory.c:183-188 | unmapping one page drops exactly one reference and leaves every other page's view |
| `PagingSteps.ShareStep` | linux-0.0.1/mm/memory.c:237-247 | sharing a frame read-only in both tables gives the child the parent's page, changes no other view and keeps count == owners |
| `PagingSteps.ShareLowStep` | linux-0.0.1/mm/memory.c:240-242 | a frame below LOW_MEM is shared read-only and is not counted |
| `PagingSteps.GrantStep` | linux-0.0.1/mm/memory.c:288-290 | giving the write bit to a sole owner changes nobody's view |
| `PagingSteps.WriteStep` | linux-0.0.1/mm/memory.c:297 | changing the contents of a frame is seen only through the entries that map it |
| `PagingCounts.AllocBits` | linux-0.0.1/mm/memory.c:52-124 | taking a frame lowers the number of free frames by one and takes no write bit and no sole ownership from anybody |
| `PagingCounts.ClearPteBits` | linux-0.0.1/mm/memory.c:183-188 | unmapping a page frees its frame exactly when nobody shares it; no other page of the same task becomes a sole owner by it |
| `PagingCounts.ShareBits` | linux-0.0.1/mm/memory.c:240-247 | sharing a frame takes no free frame, and only the shared page itself loses its write bit |
| `PagingCounts.OtherFrame` | linux-0.0.1/mm/memory.c:288-290 | a page that has its frame alone has another frame than every other page of every task |
| `PagingCounts.SameTaskFrame` | linux-0.0.1/mm/memory.c:240-247 | two pages of one task never share a paged frame |
| `Paging.Memory.constructor` | linux-0.0.1/boot/head.s:137-155 | the boot tables word by word, frame e and 1024 + e for entry e of the two, and an all-zero mem_map, satisfy the invariant with no user page |
| `Paging.Memory.GetFreePage` | linux-0.0.1/mm/memory.c:52-124 | returns the highest free frame, counted once and cleared; 0 exactly when every count is non-zero, and then nothing changes |
| `Paging.Memory.FreePage` | linux-0.0.1/mm/memory.c:130-160 | drops one reference; low addresses are ignored; both panics are excluded by a precondition that every caller meets |
| `Paging.Memory.ClearTable` | linux-0.0.1/mm/memory.c:182-188 | empties one page table, touching no view and no write bit outside it; exactly the frames that its pages had alone become free |
| `Paging.Memory.FreeDirectory` | linux-0.0.1/mm/memory.c:179-191 | a directory entry and its pages are gone, every other directory keeps its view; the page table and the frames its pages had alone become free |
| `Paging.Memory.FreePageTables` | linux-0.0.1/mm/memory.c:168-194 | the whole range is unmapped and nothing outside it changes; within one task exactly its page tables and the frames it had alone become free |
| `Paging.Memory.CopyEntry` | linux-0.0.1/mm/memory.c:236-247 | in the words of the tables: a present entry is in the other table without its write bit, one that is not present stays out, and every other entry keeps all but its write bit; low frames are not counted, paged frames once more; afterwards neither side may write to it or has its frame alone |
| `Paging.Memory.CopyTable` | linux-0.0.1/mm/memory.c:235-248 | each of the first nr entries of the child table is the parent's word at entry without the write bit, or absent where that was; the rest are absent; neither side may write |
| `Paging.Memory.CopyDirectory` | linux-0.0.1/mm/memory.c:226-249 | one directory is shared for one frame, all 1024 entries as their words were, of directory 0 the first 160, read-only on both sides; fails, changing nothing, exactly when there is a page table to copy and no frame is left; "already exist" cannot happen |
| `Paging.Memory.CopyPageTables` | linux-0.0.1/mm/memory.c:213-252 | on success every present word of the source range is in the target without its write bit; from 0 the target has frame e, read-only, at each entry e below 160 and nothing above; neither range may be written; fails exactly when there are fewer free frames than page tables to copy; nobody else's view or write bits change |
| `Paging.EveryEntry` | linux-0.0.1/mm/memory.c:235 | a child of task 0 has frame e for reading at each entry e below 160, and nothing from 160 on |
| `Paging.Memory.PutPage` | linux-0.0.1/mm/memory.c:260-281 | the entry becomes the page's frame with the bits 7 and nothing else is mapped; fails, changing nothing, exactly when a page table is needed and no frame is left |
| `Paging.Memory.UnWpPage` | linux-0.0.1/mm/memory.c:283-298 | afterwards the page is writable, private and has the contents it had: its old entry with the write bit, or an entry for a frame that nobody owned with the same words; takes a frame, or fails and changes nothing, exactly when the frame is shared |
| `Paging.Memory.CopyOnWrite` | linux-0.0.1/mm/memory.c:292-297 | the copying half of un_wp_page: one unused frame for the page, no other frame becomes free, no write bit or sole ownership lost anywhere |
| `Paging.Memory.StoreWord` | linux-0.0.1/include/asm/segment.h:35-38 | a store through a writable entry changes one word of one page of one task |
| `Paging.SharedFrame` | linux-0.0.1/mm/memory.c:237-247 | two entries on one frame: neither is writable, neither has it alone |
| `Paging.SharedReadOnly` | linux-0.0.1/mm/memory.c:213-252 | after copy_page_tables no page of either range may be written or is on a frame of its own |
| `Paging.CopyStep` | linux-0.0.1/mm/memory.c:292-297 | the copy half of un_wp_page moves one reference from the old frame to the new and keeps the invariant |
| `TaskSpaces.SpaceInherited` | linux-0.0.1/kernel/fork.c:53-57 | what copy_page_tables did to a range is, task by task, a copy of the parent's space on the parent's frames |
| `TaskSpaces.RolledBack` | linux-0.0.1/kernel/fork.c:56-59 | undoing a partial copy leaves mem_map exactly as it was before the fork |
| `TaskSpaces.OwnersBack` | linux-0.0.1/kernel/fork.c:56-59 | after the undo every frame has the owners it had before |
| `TaskFrames.FreedTwice` | linux-0.0.1/kernel/exit.c:87-88 | freeing the code and then the data segment gives back exactly the page tables of the task and the frames it had alone |
| `TaskFrames.SameFramesReadOnly` | linux-0.0.1/mm/memory.c:237-247 | two tasks on the same frames may write to none of them, and neither has one alone |
| `TaskFrames.ForkedTables` | linux-0.0.1/mm/memory.c:226-234 | the child has a page table exactly where its parent has one |
| `TaskFrames.AreaMore` | linux-0.0.1/kernel/fork.c:34-37 | one turn of verify_area: the page becomes a private copy of itself, no other page of anybody changes or loses its write bit, and one frame is taken exactly when the page was present and shared |
| `TaskFrames.GivenMore` | linux-0.0.1/mm/memory.c:283-298 | copy on write moves a frame from the free ones to those the task has alone: free and own frames together stay as many |
| `TaskFrames.AreaAddress` | linux-0.0.1/kernel/fork.c:30-36 | the k-th address that verify_area looks at is the k-th page of an area inside the segment |
| `TaskMemory.TaskMemory.constructor` | linux-0.0.1/include/linux/sched.h:278-300 | task 0 alone, with no pages of its own, satisfies the invariant |
| `TaskMemory.TaskMemory.FreeSpace` | linux-0.0.1/kernel/exit.c:87-88 | the task's own space is empty, all other spaces unchanged; exactly its page tables and the frames it had alone become free |
| `TaskMemory.TaskMemory.DoExit` | linux-0.0.1/kernel/exit.c:87-88 | exit empties exactly the exiting task's space and gives back exactly what it had for itself |
| `TaskMemory.TaskMemory.DoNoPage` | linux-0.0.1/mm/memory.c:326-334 | a missing page becomes zeros for that task only, for one frame or two; fails exactly when there are fewer; says exactly when a frame stays counted without owner because put_page failed |
| `TaskMemory.TaskMemory.DoWpPage` | linux-0.0.1/mm/memory.c:305-311 | a write fault makes the page private and writable and changes no contents; ends the task exactly when the frame is shared and none is free |
| `TaskMemory.TaskMemory.MakeWritable` | linux-0.0.1/mm/memory.c:305-334 | the faults of a store: fail exactly when there are fewer free frames than the page table, the page or the copy need |
| `TaskMemory.TaskMemory.UserStore` | linux-0.0.1/mm/memory.c:283-334 | a user store, faults included, changes one word of the storing task's space and nothing in any other task's; ends the task exactly when the frames for page table, page or copy are missing |
| `TaskMemory.TaskMemory.UserLoad` | linux-0.0.1/mm/memory.c:326-334 | a load returns the word of the task's own space; ends the task exactly when the frames for page table or page are missing |
| `TaskMemory.TaskMemory.PutFs` | linux-0.0.1/mm/memory.c:313-324 | a kernel-mode store through a verified page changes one word of the current task's space only; ends the task exactly when the frames for a missing page are missing |
| `TaskMemory.TaskMemory.WriteVerify` | linux-0.0.1/mm/memory.c:313-324 | the page at the address can be written without touching another task, and nobody reads anything else than before; fails exactly when the page is present and shared and no frame is free |
| `TaskMemory.TaskMemory.VerifyArea` | linux-0.0.1/kernel/fork.c:25-38 | every page of the area is private and writable or absent afterwards and nobody reads anything else than before; for an area in the segment, fails exactly when there are fewer free frames than pages of it that are present and shared |
| `TaskMemory.TaskMemory.CopyMem` | linux-0.0.1/kernel/fork.c:40-61 | every one of the 16384 pages of the new slot is the word of the parent's page table without the write bit, or absent where that was; of task 0 pages 0 to 159 are frames 0 to 159; or every frame taken is given back and mem_map is exactly as before; -ENOMEM exactly when there are fewer free frames than page tables to copy |
| `TaskMemory.TaskMemory.CopyProcess` | linux-0.0.1/kernel/fork.c:77-117 | fork gives the child the words of the parent's page tables without their write bits, page by page, and a child of task 0 the first 160 frames for reading; both are read-only; -EAGAIN exactly when there are fewer free frames than the parent has page tables and one more, and then tasks, spaces, kernel frames and mem_map are exactly as before |
| `TaskMemory.ReadOnlyIsMapped` | linux-0.0.1/mm/memory.c:313-324 | an entry without write bit that write_verify finds is always a task's page, never a boot page |
| `TaskMemory.WordThere` | linux-0.0.1/mm/memory.c:326-334 | the word that the processor finds through the two tables is the one in the task's own view |
| `TaskMemory.TaskMemory.ExecPages` | linux-0.0.1/fs/exec.c:285-290 | exec leaves the task exactly the argument pages, writable, at the end of its segment, and gives back exactly what it had for itself but for one page table |
| `TaskMemory.TaskMemory.ChangeLdt` | linux-0.0.1/fs/exec.c:194-217 | each argument page is placed once, at its own address, and changes hands from the kernel to the task |
| `TaskMemory.TaskMemory.Release` | linux-0.0.1/kernel/exit.c:13-27 | the frame of the task structure goes back and no space changes |
| `TaskMemory.TaskMemory.LowStore` | linux-0.0.1/mm/memory.c:207-211 | a kernel store to low memory changes no task's own pages |
| `TaskMemory.TaskMemory.GrabPage` | linux-0.0.1/fs/exec.c:178-179 | a page for the kernel itself: no task notices |
| `TaskMemory.TaskMemory.FillPage` | linux-0.0.1/fs/exec.c:183-189 | a store into such a page is seen by no task |
| `TaskMemory.TaskMemory.DropPage` | linux-0.0.1/fs/exec.c:274-275 | giving it back changes nothing for any task |
| `PagingMachine.AloneAfterFork` | linux-0.0.1/mm/memory.c:237-247 | a fork takes the frame of no page that another task has alone |
| `PagingMachine.AreaSettled` | linux-0.0.1/kernel/fork.c:25-38 | after verify_area every shared page of the area is the only one on its new frame |
| `PagingMachine.ExecSettled` | linux-0.0.1/fs/exec.c:194-217 | after exec every argument page is the only page on its frame |
| `PagingMachine.NextKeeps` | linux-0.0.1/mm/memory.c:168-334 | every operation keeps: a page that may be written is on a frame of its own, a page that is there has a page table, and no page is on a frame that the kernel holds |
| `PagingMachine.InvAlways` | linux-0.0.1/mm/memory.c:168-334 | so these hold in every state of every run in whose first state they hold |
| `PagingRuns.ForkDone` | linux-0.0.1/kernel/fork.c:68-129 | fork is fork on private memories: the child is on its parent's frames, and neither may write to any |
| `PagingRuns.ForkNotDone` | linux-0.0.1/kernel/fork.c:68-129 | a fork that fails leaves every private memory as it was |
| `PagingRuns.StepFork` | linux-0.0.1/kernel/fork.c:68-129 | so the code of fork makes that step |
| `PagingRuns.StepStore` | linux-0.0.1/mm/memory.c:283-334 | a user store on shared frames is a store to a private memory; the task is ended exactly when its frames are missing |
| `PagingRuns.StepLoad` | linux-0.0.1/mm/memory.c:326-334 | a load from shared frames is a load from a private memory; the task is ended exactly when its frames are missing |
| `PagingRuns.StepVerify` | linux-0.0.1/kernel/fork.c:25-38 | verify_area changes only the task's own pages, which become private and writable; it fails exactly when there are fewer free frames than shared pages in the area |
| `PagingRuns.StepPut` | linux-0.0.1/mm/memory.c:313-324 | a kernel store to a verified page is a store to the task's private memory |
| `PagingRuns.StepExec` | linux-0.0.1/fs/exec.c:281-290 | exec replaces one private memory by the argument pages that the kernel held |
| `PagingRuns.StepExit` | linux-0.0.1/kernel/exit.c:83-111 | exit ends one private memory and gives back exactly its page tables and the frames it had alone |
| `PagingRuns.GivenIsShare` | linux-0.0.1/mm/memory.c:168-194 | what a task would give back, counted by entries and by pages of its private memory |
| `PagingRuns.AloneAre` | linux-0.0.1/mm/memory.c:288-290 | a page's frame is counted once exactly when no other page of any task is on it |
| `PagingRuns.UnusedIsFresh` | linux-0.0.1/mm/memory.c:52-124 | the frame that get_free_page finds is behind no page and is not the kernel's |
| `PagingRuns.ZeroLends` | linux-0.0.1/mm/memory.c:235 | the memory of task 0 in numbers: page p is frame p for p below 160, and nothing above |
| `PagingRuns.Run` | linux-0.0.1/mm/memory.c:168-334 | every run of the paging code, of any length, is a run of the machine with one private memory per task, the frames behind its pages and a count of free frames, whose outcomes these decide (`PagingLaws.Determined`) |
| `PagingLaws.Isolation` | linux-0.0.1/mm/memory.c:213-252 | over every run, whatever other tasks, forks, execs, system calls and the kernel do, the memory, the page tables and the frames of a task stay exactly as they are until it acts itself |
| `PagingLaws.WordLasts` | linux-0.0.1/mm/memory.c:283-298 | over every run a word stored in a task's page stays until that task stores there again or ends |
| `PagingLaws.LoadReturnsLastStore` | linux-0.0.1/mm/memory.c:283-334 | over every run a load returns the last word its task stored there, whatever other tasks, its children and the kernel did in between |
| `PagingLaws.VerifiedStays` | linux-0.0.1/kernel/fork.c:25-38 | over every run no operation of another task, fork, fault, exec, exit or verify_area, takes the write bit from a verified page of a task that sleeps |
| `PagingLaws.PutAfterVerify` | linux-0.0.1/fs/read_write.c:58-66 | a system call that has verified its area may store to any page of it at any later time, however many operations of other tasks came in between |
| `PagingLaws.ForkSharesAll` | linux-0.0.1/mm/memory.c:237-247 | after a fork neither parent nor child may write to any page, and making a present page of either writable takes a frame |
| `PagingLaws.ForkUndone` | linux-0.0.1/kernel/exit.c:83-111 | a child that ends without having stored anything has cost nothing: all its frames are free again |
| `PagingLaws.StoreIsFree` | linux-0.0.1/mm/memory.c:283-290 | a store to a page that the task may write takes no frame and cannot fail |
| `PagingLaws.StoreAgainIsFree` | linux-0.0.1/mm/memory.c:283-290 | over every run a task that has stored to a page can store there again without a frame and without fail, unless it has forked, been replaced or ended since |
| `PagingLaws.SameAlone` | linux-0.0.1/mm/memory.c:52-124 | which frame get_free_page picks makes no difference to who shares one |
| `PagingLaws.Determined` | linux-0.0.1/mm/memory.c:168-334 | the machine leaves nothing open: the same operation in the same state has the same outcome, whatever frames are picked, and leaves as many free frames, the same private memories and the same sharing |
| `PagingLaws.LoadReads` | linux-0.0.1/mm/memory.c:326-334 | a load returns what the task reads there: its own word, the low memory where that is lent, zero where there is no page |
| `PagingLaws.StoreReads` | linux-0.0.1/include/asm/segment.h:35-38 | a store changes what its task reads at this one word and at no other |
| `PagingLaws.QuietReads` | linux-0.0.1/kernel/fork.c:25-38 | loads and verify_area change nothing that their task reads |
| `PagingLaws.ForkReads` | linux-0.0.1/mm/memory.c:213-252 | the child reads, word for word, what its parent read; the child of task 0 reads the low memory, page for page, and zeros from page 160 on |
| `PagingLaws.FirstChildLoads` | linux-0.0.1/mm/memory.c:235-239 | the first fork of every boot: what the child loads from page q below 160 is word i of low frame q |
| `PagingLaws.ExecReads` | linux-0.0.1/fs/exec.c:209-217 | a new program reads the argument pages in the last 128 kB of its 64 MB and zeros everywhere else |
| `PagingLaws.OthersRead` | linux-0.0.1/mm/memory.c:168-334 | whatever one task does, every other reads what it read, but for the kernel's own stores to low memory that is lent |
| `PagingLaws.EveryByteVerified` | linux-0.0.1/kernel/fork.c:25-38 | after verify_area the page of every byte of the area is absent or writable, by addresses |
| `FileState.PathsDiffer` | linux-0.0.1/fs/inode.c:58-66 | different block numbers of a file take different paths through the three levels |
| `FileSteps.AllocStep` | linux-0.0.1/fs/bitmap.c:67-97 | handing out a free zone, cleared, keeps the accounting and every file's contents |
| `FileSteps.LinkZoneStep` | linux-0.0.1/fs/inode.c:59-64 | entering a fresh zone in the inode keeps the invariant, and every file reads as before |
| `FileSteps.LinkEntryStep` | linux-0.0.1/fs/inode.c:77-82 | entering a fresh block in an index block keeps the invariant, and every file reads as before |
| `FileSteps.WriteStep` | linux-0.0.1/fs/file_dev.c:64-75 | changing the bytes of one data block changes that block of that file only and no block number |
| `FileSystem.LowestZero` | linux-0.0.1/fs/bitmap.c:27-31 | the lowest clear bit of a word |
| `FileSystem.FindFirstZero` | linux-0.0.1/fs/bitmap.c:23-37 | the lowest clear bit of a bitmap block, 8192 when there is none |
| `FileSystem.Device.NewBlock` | linux-0.0.1/fs/bitmap.c:67-97 | returns the lowest unused zone, its 1024 bytes zero and its bit, bit zone - first + 1 of the map, the only one that changed; 0 exactly when no zone is free, and then nothing changes |
| `FileSystem.Device.FreeBlock` | linux-0.0.1/fs/bitmap.c:39-65 | exactly the bit of this zone is cleared; the panics are excluded by a precondition that truncate meets |
| `FileSystem.Device.EnterZone` | linux-0.0.1/fs/inode.c:58-72 | returns what the inode holds afterwards; 0 on create only when the device is full; no file's contents change |
| `FileSystem.Device.EnterEntry` | linux-0.0.1/fs/inode.c:77-82 | the same for an entry of an index block |
| `FileSystem.Device.Bmap` | linux-0.0.1/fs/inode.c:49-125 | in the fields after the call: i_zone[block] below 7; the number at bytes 2k and 2k + 1, low byte first, of the block in i_zone[7] for k = block - 7 below 512; for the rest the number at k % 512 of the block that is listed at k / 512 of i_zone[8]; 0 where any of them is missing; without create nothing changes; with create no contents change, only this file grows, and 0 means a full device |
| `FileSystem.BlockIs` | linux-0.0.1/fs/inode.c:58-115 | the block tree in the fields of the inode and the bytes of its index blocks |
| `FileSystem.ByteIs` | linux-0.0.1/fs/file_dev.c:19-36 | byte pos of a file is byte pos % 1024 of its block pos / 1024, or 0 in a hole |
| `FileSystem.Device.FirstZero` | linux-0.0.1/fs/bitmap.c:75-81 | the first clear bit over all bitmap blocks, or none |
| `FileSystem.Device.BmapIndirect` | linux-0.0.1/fs/inode.c:66-85 | the same through the indirect block |
| `FileSystem.Device.BmapDouble` | linux-0.0.1/fs/inode.c:86-115 | the same through the double indirect block |
| `FileSystem.Device.FileWrite` | linux-0.0.1/fs/file_dev.c:42-84 | exactly the bytes [pos, pos+n) of that file are new, its size covers them, no other byte or file changes; a short count only on a full device; the new file position |
| `FileSystem.Device.WriteBlocks` | linux-0.0.1/fs/file_dev.c:58-77 | the loop writes a prefix of the buffer and stops early only on a full device |
| `FileSystem.Device.WriteBlock` | linux-0.0.1/fs/file_dev.c:58-77 | one round writes one piece inside one block |
| `FileSystem.Device.FileRead` | linux-0.0.1/fs/file_dev.c:11-40 | returns exactly the bytes of the file from the position on, holes as zeros, and changes nothing |
| `FileSystem.Device.FreeInd` | linux-0.0.1/fs/truncate.c:5-21 | the used zones lose exactly the indirect block and what it lists, each once |
| `FileSystem.Device.FreeDind` | linux-0.0.1/fs/truncate.c:23-39 | the used zones lose exactly the whole double-indirect subtree, each block once; "bit already cleared" cannot happen |
| `FileSystem.Device.Truncate` | linux-0.0.1/fs/truncate.c:41-58 | the inode has size 0 and nine zeros, exactly its blocks are free again, every other file is as it was; other inode types are left alone |
| `FileSystem.TruncateStep` | linux-0.0.1/fs/truncate.c:41-58 | freeing all blocks of one file keeps the accounting: bitmap bit set if and only if reachable, no block reached twice |
| `FileSystem.TruncatedUsed` | linux-0.0.1/fs/truncate.c:47-56 | what is still used after truncate is what was used and not reachable from the file |
| `FileSystem.AllPaths` | linux-0.0.1/fs/truncate.c:47-54 | the three loops of truncate reach every path of a file |
| `FileSystem.WrittenMore` | linux-0.0.1/fs/file_dev.c:58-77 | pieces written one after the other are one longer write |
| `FileSystem.ChunkWritten` | linux-0.0.1/fs/file_dev.c:63-75 | changing a block is changing the bytes of the file at its position and no others |
| `FileRuns.FilesAreByteArrays` | linux-0.0.1/fs/file_dev.c:11-84 | after any run of reads, writes and truncations of any files every byte and the size of every file are those of the flat byte array: the last byte written there, or the initial one, or 0 after a truncation |
| `FileRuns.ReadFindsLastWrite` | linux-0.0.1/fs/file_dev.c:11-40 | every read of every run finds, byte for byte, what was written there last |
| `FileRuns.WriteLasts` | linux-0.0.1/fs/file_dev.c:42-84 | the last byte written at a position is the one that a write put there if no later write covers it and the file was not emptied since |
| `FileRuns.Run` | linux-0.0.1/fs/file_dev.c:11-84 | any list of calls on the device is such a run, and a write is cut short only on a full device |
| `BufferState.UnchainStep` | linux-0.0.1/fs/buffer.c:73-80 | unlinking the k-th buffer of a hash chain leaves a well-formed doubly linked chain of the others |
| `BufferState.UncircleStep` | linux-0.0.1/fs/buffer.c:81-87 | unlinking the k-th buffer of the free list leaves a well-formed circle of the others, with the right head |
| `BufferState.EncircleStep` | linux-0.0.1/fs/buffer.c:91-95 | linking before the head puts the buffer at the end of the circle |
| `BufferState.EnchainStep` | linux-0.0.1/fs/buffer.c:96-103 | linking at the head of a hash chain, with the back link guarded, gives a well-formed chain |
| `BufferSteps.RemovedStep` | linux-0.0.1/fs/buffer.c:71-87 | remove_from_queues keeps both kinds of list well formed, takes exactly this buffer off both, and changes no payload |
| `BufferSteps.InsertedStep` | linux-0.0.1/fs/buffer.c:89-104 | insert_into_queues keeps both kinds of list well formed and puts exactly this buffer at the end of the free list and, with a device, in its hash chain |
| `BufferSteps.PayloadStep` | linux-0.0.1/fs/buffer.c:177-180 | changing other fields than links and hashed identities keeps the lists |
| `BufferCache.Cache.constructor` | linux-0.0.1/fs/buffer.c:232-261 | all buffers are on the free list in order, unhashed and clean |
| `BufferCache.Cache.RemoveFromQueues` | linux-0.0.1/fs/buffer.c:71-87 | the pointer code computes the list removal; "Free block list corrupted" cannot happen |
| `BufferCache.Cache.InsertIntoQueues` | linux-0.0.1/fs/buffer.c:89-104 | the pointer code computes the list insertion |
| `BufferCache.Cache.FindBuffer` | linux-0.0.1/fs/buffer.c:106-114 | finds the hashed buffer of the block; NULL exactly when there is none |
| `BufferCache.Cache.WriteBuffer` | linux-0.0.1/fs/buffer.c:46-47 | writing a dirty buffer changes no block as readers see it |
| `BufferCache.Cache.SyncDev` | linux-0.0.1/fs/buffer.c:52-66 | leaves no dirty buffer of the device and changes no block as readers see it |
| `BufferCache.Cache.FindFree` | linux-0.0.1/fs/buffer.c:151-161 | the first unused buffer of the free list; NULL exactly when every buffer is in use |
| `BufferCache.Cache.GetBlk` | linux-0.0.1/fs/buffer.c:144-194 | returns the buffer of the block with one more user, keeps every held buffer's identity and changes no block as readers see it; a block not cached gets the first unused buffer of the free list, which goes to the end of it, clean and not up to date; a cached one leaves the list alone; NULL only when all are in use |
| `BufferCache.Cache.GetUnused` | linux-0.0.1/fs/buffer.c:151-193 | the first buffer of the free list that nobody uses becomes the last of it, clean, not up to date and with one user |
| `BufferCache.Cache.Brelse` | linux-0.0.1/fs/buffer.c:196-203 | one user less; nothing else changes |
| `BufferCache.Cache.Bread` | linux-0.0.1/fs/buffer.c:210-223 | returns a buffer with the last data written to the block, and changes no block as readers see it |
| `BufferCache.Cache.Modify` | linux-0.0.1/fs/file_dev.c:64-75 | a change of a held buffer is seen at its block and at no other |
| `BufferCache.Cache.Flush` | linux-0.0.1/fs/buffer.c:44-48 | the buffer is clean and no block changes as readers see it |
| `BufferCache.Cache.SysSync` | linux-0.0.1/fs/buffer.c:37-50 | afterwards every block on the disk is what readers see, and readers see what they saw |
| `BufferCache.Cache.Reassign` | linux-0.0.1/fs/buffer.c:168-193 | evicting an unused buffer for another block loses no data: every block reads as before |
| `BufferCache.WrittenSeen` | linux-0.0.1/fs/buffer.c:46-47 | a write-out keeps the abstract disk |
| `BufferCache.Evicted` | linux-0.0.1/fs/buffer.c:168-191 | a clean buffer may leave the queues without changing the abstract disk |
| `BufferCache.Reassigned` | linux-0.0.1/fs/buffer.c:177-193 | nor does its return under a new identity |
| `BufferCache.ReadStep` | linux-0.0.1/fs/buffer.c:217-219 | filling a buffer from the disk keeps the abstract disk |
| `BufferCache.ModifyStep` | linux-0.0.1/fs/file_dev.c:64-75 | a user's change is one change of the abstract disk |
| `BufferCache.AllWritten` | linux-0.0.1/fs/buffer.c:44-48 | with no dirty buffer the real disk is the abstract disk |
| `BufferRuns.WriteLasts` | linux-0.0.1/fs/file_dev.c:64-75 | the last contents of a block are those of a write to it that no other write to it follows |
| `BufferRuns.ReadBlock` | linux-0.0.1/fs/buffer.c:196-223 | bread and brelse find what was last written and leave every block and every count as they were |
| `BufferRuns.WriteBlock` | linux-0.0.1/fs/file_dev.c:64-75 | a change of a block is seen there and nowhere else |
| `BufferRuns.Run` | linux-0.0.1/fs/buffer.c:37-223 | the cache is transparent: in any list of reads, writes and syncs every read finds the block's last contents, whatever was evicted and read back, and after a sync the disk holds them |
| `BufferSharing.ListNeverShort` | linux-0.0.1/fs/buffer.c:144-194 | the free list never runs empty however many tasks are writing buffers out |
| `BufferSharing.OffListHasOneUser` | linux-0.0.1/fs/buffer.c:168-175 | a buffer off the lists has count 1 |
| `BufferSharing.WriterAlone` | linux-0.0.1/fs/buffer.c:170-175 | only the task that took a buffer off the queues refers to it |
| `BufferSharing.FoundStep` | linux-0.0.1/fs/buffer.c:127-130 | counting a found buffer keeps identity, uniqueness and count == users |
| `BufferSharing.TicketStep` | linux-0.0.1/fs/buffer.c:131-136 | after the wait the buffer still has the identity asked for, so the retry in get_hash_table is never taken |
| `BufferSharing.BrelseStep` | linux-0.0.1/fs/buffer.c:196-203 | the count of a held buffer is positive: "Trying to free free buffer" cannot happen |
| `BufferSharing.ClaimStep` | linux-0.0.1/fs/buffer.c:167-168 | taking an unused buffer off the queues keeps the shared invariant |
| `BufferSharing.GotStep` | linux-0.0.1/fs/buffer.c:177-193 | without a rival the buffer comes back as the only one of its block |
| `BufferSharing.BeatenStep` | linux-0.0.1/fs/buffer.c:184-190 | with a rival it comes back empty and unused |
| `BufferSharing.HeldBufferStays` | linux-0.0.1/fs/buffer.c:123-204 | over every interleaving a held buffer keeps its identity, stays hashed and counted |
| `BufferSharing.NeverTwice` | linux-0.0.1/fs/buffer.c:144-194 | in every state of every interleaving a block is in at most one hashed buffer, and a buffer off the lists has a user |
| `BufferSharing.InvAlways` | linux-0.0.1/fs/buffer.c:71-204 | the shared invariant of the first state holds in every state of every interleaving |
| `BufferSharing.Sharing.constructor` | linux-0.0.1/fs/buffer.c:232-261 | the initial state satisfies the shared invariant |
| `BufferSharing.Sharing.LookUp` | linux-0.0.1/fs/buffer.c:127-131 | the code up to the first sleep is that step of the machine; finds a buffer exactly when the block is cached |
| `BufferSharing.Sharing.FoundReturns` | linux-0.0.1/fs/buffer.c:131-137 | the code after the sleep is that step and returns the right buffer |
| `BufferSharing.Sharing.TakeOff` | linux-0.0.1/fs/buffer.c:164-175 | claiming an unused buffer up to sync_dev is that step |
| `BufferSharing.Sharing.PutBack` | linux-0.0.1/fs/buffer.c:176-194 | the code after sync_dev is that step: the buffer is the last of the free list, clean, with the block and one user if nobody cached the block meanwhile, and with neither if somebody did |
| `BufferSharing.Sharing.Brelse` | linux-0.0.1/fs/buffer.c:196-203 | brelse is that step |
| `BufferSharing.Sharing.Touch` | linux-0.0.1/kernel/hd.c:257-299 | what an interrupt does to the marks of a buffer is that step, and no other field of any buffer changes |
| `WaitQueue.SleptStep` | linux-0.0.1/kernel/sched.c:150-153 | entering sleep_on keeps the queues disjoint acyclic chains |
| `WaitQueue.WokenStep` | linux-0.0.1/kernel/sched.c:179-185 | so does wake_up, which detaches the chain |
| `WaitQueue.ResumedStep` | linux-0.0.1/kernel/sched.c:154-155 | so does leaving sleep_on, which wakes the next of the chain |
| `WaitQueue.RunnableIsFirst` | linux-0.0.1/kernel/sched.c:153-155 | a task that runs again inside sleep_on is first of a detached chain, and the task in its tmp still sleeps |
| `WaitQueue.OneWakerEach` | linux-0.0.1/kernel/sched.c:142-156 | every uninterruptible sleeper is the head of exactly one queue or the tmp of exactly one other task inside sleep_on; a woken one is neither |
| `WaitQueue.MovesKeepInv` | linux-0.0.1/kernel/sched.c:142-185 | every step keeps the invariant |
| `WaitQueue.InvAlways` | linux-0.0.1/kernel/sched.c:142-185 | so it holds in every state of every run that starts with it |
| `WaitQueue.DetachedStep` | linux-0.0.1/kernel/sched.c:153-155 | a detached chain changes only when its first task resumes, and loses only that one |
| `WaitQueue.ChainDrains` | linux-0.0.1/kernel/sched.c:142-185 | over every run a detached chain loses a prefix: exactly the tasks that have resumed |
| `WaitQueue.WakeUpReachesAll` | linux-0.0.1/kernel/sched.c:142-185 | no lost sleeper: after wake_up a sleeper behind k others is runnable once each of those has resumed, and until then one of them is runnable |
| `WaitQueue.WaitQueues.SleepOn` | linux-0.0.1/kernel/sched.c:142-153 | computes the sleep step: the task is the head of the queue, asleep, and its tmp is the old head |
| `WaitQueue.WaitQueues.Resume` | linux-0.0.1/kernel/sched.c:153-156 | computes the resume step: exactly the task in tmp is made runnable, and it was asleep |
| `WaitQueue.WaitQueues.WakeUp` | linux-0.0.1/kernel/sched.c:179-185 | computes the wake-up step: exactly the head is made runnable, and the queue is empty |
| `Scheduler.BestIs` | linux-0.0.1/kernel/sched.c:102-111 | the search finds a runnable task that nobody beats, the highest slot among equals, or says that none is runnable |
| `Scheduler.OneRecharge` | linux-0.0.1/kernel/sched.c:112-116 | after one recharge the search finds a task with time left |
| `Scheduler.ScheduleIsFair` | linux-0.0.1/kernel/sched.c:82-119 | runs a runnable task of maximal counter, task 0 exactly when no other is runnable; recharges exactly when somebody is runnable and all runnable counters are 0; 0 <= counter < 2p is kept |
| `Scheduler.ScheduledIs` | linux-0.0.1/kernel/sched.c:82-119 | what schedule does to all slots, without the functions of the model |
| `Scheduler.ChosenIs` | linux-0.0.1/kernel/sched.c:102-111 | the slot chosen has most time of the runnable ones and, among equals, the largest number |
| `Scheduler.SleepersCredit` | linux-0.0.1/kernel/sched.c:113-116 | of two tasks with one priority the one with more time left keeps at least as much after a recharge; a task with at least 2 left starts the epoch above its priority; nobody gets twice his priority |
| `Scheduler.TickIs` | linux-0.0.1/kernel/sched.c:187-197 | a tick takes one from the counter of the current task, never below 0; only in user mode with no time left does it schedule |
| `Scheduler.ChildStarts` | linux-0.0.1/kernel/fork.c:81-86 | a child starts runnable with as much time as its parent's priority, without signals and alarm; nobody else loses time, and the next schedule starts no new epoch |
| `Scheduler.ScheduledBudget` | linux-0.0.1/kernel/sched.c:82-119 | schedule never adds to the time that a runnable task still has to wait |
| `Scheduler.TickedBudget` | linux-0.0.1/kernel/sched.c:187-197 | every user-mode tick takes from it |
| `Scheduler.BlockedBudget` | linux-0.0.1/kernel/sched.c:121-156 | nor does another task's blocking add to it |
| `Scheduler.StepBudget` | linux-0.0.1/kernel/sched.c:82-240 | every step keeps the waiting bound, a user tick lowers it, a fork adds one share |
| `Scheduler.WaitIsBounded` | linux-0.0.1/kernel/sched.c:82-240 | no starvation: over every run a runnable task that is passed over sees at most its budget of user-mode ticks, plus one share per fork |
| `Scheduler.WaitInTicks` | linux-0.0.1/kernel/sched.c:82-240 | the same bound in numbers of slots, priority and forks |
| `Scheduler.InvAlways` | linux-0.0.1/kernel/sched.c:82-240 | 0 <= counter < 2 * largest priority and a positive priority in every state of every run that starts so |
| `Scheduler.Tasks.constructor` | linux-0.0.1/include/linux/sched.h:278-279 | task 0 with counter and priority 15 |
| `Scheduler.Tasks.Schedule` | linux-0.0.1/kernel/sched.c:82-119 | in numbers: alarms and signals first; then a recharge exactly when somebody is runnable and all who are have no time left; then the runnable task with most time, of equals the one with the largest number, task 0 exactly when there is none |
| `Scheduler.Tasks.Search` | linux-0.0.1/kernel/sched.c:102-111 | the downward scan finds the runnable slot with most time, of equals the one with the largest number, 0 if there is none |
| `Scheduler.Tasks.Recharge` | linux-0.0.1/kernel/sched.c:113-116 | every used slot but 0 gets its priority and half of its counter, rounded down (0 <= c - 2 * (c' - priority) <= 1), and nothing else changes |
| `Scheduler.Tasks.DoTimer` | linux-0.0.1/kernel/sched.c:187-197 | a tick: no rescheduling in kernel mode or while time is left |
| `Scheduler.Tasks.SysNice` | linux-0.0.1/kernel/sched.c:235-240 | a positive priority stays positive, a change that keeps it so is made, and no other field of any task changes |
| `DiskOrder.PlaceFrom` | linux-0.0.1/kernel/hd.c:361-365 | the loop stops at the first entry behind which the request fits, or at the last |
| `DiskOrder.Place` | linux-0.0.1/kernel/hd.c:353-369 | the first two entries stay in front |
| `DiskOrder.AddedDescents` | linux-0.0.1/kernel/hd.c:340-370 | the exact change in the number of sweeps behind the current request, for any positions |
| `DiskOrder.SpoilsAtPlace` | linux-0.0.1/kernel/hd.c:361-365 | the loop breaks the order exactly when there is no strict place and the last request comes later, or a pair for one place comes before every strict place |
| `DiskOrder.TwoSweepsExactly` | linux-0.0.1/kernel/hd.c:340-370 | two sweeps stay two if and only if there was one or the request meets neither a pair for one place nor a later last request, by positions alone |
| `DiskOrder.SamePlaceCostsASweep` | linux-0.0.1/kernel/hd.c:361-365 | requests for cylinders 0, 5, 1, 3 and 1 again: the fifth makes a third sweep |
| `DiskOrder.TwoSweepsKept` | linux-0.0.1/kernel/hd.c:340-370 | for requests at different places the work behind the current request stays at most two ascending sweeps |
| `DiskOrder.DescentsAfterInsert` | linux-0.0.1/kernel/hd.c:366-367 | inserting changes the sweeps only at the neighbours |
| `DiskOrder.FitsInSecondSweep` | linux-0.0.1/kernel/hd.c:361-365 | a request that belongs into the second sweep finds its place there |
| `DiskOrder.LocateLinear` | linux-0.0.1/kernel/hd.c:125-129 | the two divisions give a cylinder, a head and a sector from 1 on, in range, with (cylinder * heads + head) * sectors + sector == block + 1 |
| `DiskOrder.OrderIsLinear` | linux-0.0.1/kernel/hd.c:65-69 | on one drive IN_ORDER compares linear sector numbers |
| `DiskOrder.DrivesInOrder` | linux-0.0.1/kernel/hd.c:65-69 | requests for drive 0 come before those for drive 1 |
| `DiskOrder.RequestsStayInPartition` | linux-0.0.1/kernel/hd.c:119-129 | a request is made exactly for blocks inside the partition, and both sectors it transfers lie there |
| `HardDisk.InterruptedStep` | linux-0.0.1/kernel/hd.c:252-333 | every interrupt keeps the queue well formed and a fitting handler armed while there is work |
| `HardDisk.AddedStep` | linux-0.0.1/kernel/hd.c:340-379 | so does adding a request |
| `HardDisk.ServedInOrder` | linux-0.0.1/kernel/hd.c:252-303 | an interrupt loses no request and serves them in queue order |
| `HardDisk.AddedOnce` | linux-0.0.1/kernel/hd.c:353-369 | adding inserts exactly one request, behind at least the first two, and loses none |
| `HardDisk.InterruptCosts` | linux-0.0.1/kernel/hd.c:252-333 | with DRQ raised every interrupt lowers the work measure (queue, sectors, retries, phase) |
| `HardDisk.AddCosts` | linux-0.0.1/kernel/hd.c:340-379 | a new request adds at most 26 interrupts |
| `HardDisk.IdleIsFree` | linux-0.0.1/kernel/hd.c:309-314 | no interrupt is expected exactly when no work is left |
| `HardDisk.InvAlways` | linux-0.0.1/kernel/hd.c:252-379 | a well-formed queue with a fitting handler armed in every state of every run that starts so |
| `HardDisk.InterruptsAreBounded` | linux-0.0.1/kernel/hd.c:252-379 | over every run, whatever the errors, there are at most 26 interrupts per request and what was left at the start |
| `HardDisk.EveryRequestEnds` | linux-0.0.1/kernel/hd.c:252-379 | over every run the requests accepted are, one by one, those pending or reported, no report is taken back, and when no interrupt is expected every one has been reported |
| `HardDisk.InterruptIs` | linux-0.0.1/kernel/hd.c:252-303 | the interrupt step in the fields of the request, for each of the four cases |
| `HardDisk.RequestSent` | linux-0.0.1/kernel/hd.c:305-333 | do_request arms the handler that fits the command of the current request, and a reset when a write is not taken |
| `HardDisk.ReportIsTrue` | linux-0.0.1/kernel/hd.c:252-303 | an interrupt reports at most the current request, up to date exactly when the controller found no error |
| `HardDisk.ErrorsAreFailures` | linux-0.0.1/kernel/hd.c:252-303 | over every run the errors counted are not more than the interrupts of this request that failed |
| `HardDisk.ReportsAreTrue` | linux-0.0.1/kernel/hd.c:252-303 | over every run a buffer is reported up to date exactly when the interrupt that ended its request found no error, and not up to date only after six errors of that request |
| `HardDisk.ThirdSweepIsReached` | linux-0.0.1/kernel/hd.c:340-379 | from any idle disk five requests with five different buffers lead to the third sweep |
| `HardDisk.AlwaysTwoSweeps` | linux-0.0.1/kernel/hd.c:340-370 | over every run of requests for different places at most two sweeps are pending behind the current request |
| `HardDisk.Disk.constructor` | linux-0.0.1/kernel/hd.c:410-423 | no requests |
| `HardDisk.Disk.StartRequest` | linux-0.0.1/kernel/hd.c:305-333 | arms the handler that the current request needs; "Trying to write bad sector" and "unknown hd-command" cannot happen |
| `HardDisk.Disk.Finish` | linux-0.0.1/kernel/hd.c:277-282 | the current request leaves queue and slot and is reported |
| `HardDisk.Disk.BadRwIntr` | linux-0.0.1/kernel/hd.c:252-264 | an error is counted up to the fifth in a row; the sixth ends the request, its buffer reported not up to date; the drive is reset |
| `HardDisk.Disk.Interrupt` | linux-0.0.1/kernel/hd.c:266-314 | the handler armed computes the interrupt step; a report that it makes is of the current request's buffer, up to date exactly when the controller found no error |
| `HardDisk.Disk.RwIntr` | linux-0.0.1/kernel/hd.c:266-303 | without error a sector is done, or with the second the request ends and its buffer is reported up to date; a read clears the error count; an error is counted, or the sixth ends the request, not up to date |
| `HardDisk.Disk.FindPlace` | linux-0.0.1/kernel/hd.c:360-365 | the pointer loop stops at the entry the order asks for |
| `HardDisk.Disk.AddRequest` | linux-0.0.1/kernel/hd.c:340-379 | the pointer code inserts the request at its place and starts an idle disk |
| `HardDisk.Disk.RwAbsHd` | linux-0.0.1/kernel/hd.c:389-406 | takes a free slot if there is one and queues the request; otherwise changes nothing |
| `ConsoleGrid.Put` | linux-0.0.1/kernel/console.c:416-565 | every byte in every parser state keeps the cursor on the screen or just behind its last column, the region non-empty and the parameter index below NPAR |
| `ConsoleGrid.PutAll` | linux-0.0.1/kernel/console.c:408-567 | so does every stream of bytes |
| `ConsoleLaws.TextAppears` | linux-0.0.1/kernel/console.c:417-429 | printable text that fits in the line appears at the cursor and changes nothing else but the column |
| `ConsoleLaws.FullLineWraps` | linux-0.0.1/kernel/console.c:419-423 | a character after a full line goes to the start of the next, scrolling at the end of the region |
| `ConsoleLaws.ParameterReadsBack` | linux-0.0.1/kernel/console.c:483-485 | the parser reads back the decimal digits of every 32-bit parameter |
| `ConsoleLaws.OneParameter` | linux-0.0.1/kernel/console.c:472-486 | a sequence with one parameter runs its command on exactly that parameter |
| `ConsoleLaws.TwoParameters` | linux-0.0.1/kernel/console.c:472-486 | a sequence with two parameters runs its command on exactly those two |
| `ConsoleLaws.CursorPosition` | linux-0.0.1/kernel/console.c:522-526 | CUP: the cursor goes to the line and column named, counted from 1, and nothing else changes, the saved cursor included |
| `ConsoleLaws.EraseAll` | linux-0.0.1/kernel/console.c:214-217 | ED 2: every cell is blank and the cursor stays |
| `ConsoleLaws.EraseWholeLine` | linux-0.0.1/kernel/console.c:245-248 | EL 2: the cursor's line is blank and no other line changes |
| `ConsoleLaws.TextAt` | linux-0.0.1/kernel/console.c:408-567 | going to a place and writing there shows the text there and changes nothing else, wherever the cursor was |
| `ConsoleLaws.DeleteUndoesInsert` | linux-0.0.1/kernel/console.c:362-390 | deleting the lines just inserted brings back all but those that fell off the screen |
| `ConsoleLaws.InsertAfterDelete` | linux-0.0.1/kernel/console.c:362-390 | inserting where lines were deleted leaves blanks in their place |
| `ConsoleLaws.CellDeleteUndoesInsert` | linux-0.0.1/kernel/console.c:352-380 | deleting the characters just inserted brings back all but those that fell off the line |
| `ConsoleLaws.ScrollDownUndoesUp` | linux-0.0.1/kernel/console.c:103-163 | a region scrolled up and down has lost its first line and nothing else |
| `ConsoleLaws.SavesInColumn55` | linux-0.0.1/kernel/console.c:467-468 | ESC 7 saves the cursor exactly in column 55 |
| `ConsoleLaws.RestoresInColumn56` | linux-0.0.1/kernel/console.c:469-470 | ESC 8 restores it exactly in column 56 |
| `ConsoleLaws.SaveIsLost` | linux-0.0.1/kernel/console.c:467-468 | in column 10 of a fresh screen ESC 7 saves nothing |
| `ConsoleCommands.SequenceBytes` | linux-0.0.1/kernel/console.c:455-486 | the bytes of a sequence: ESC [, the digits of its numbers with a semicolon between, and the final byte |
| `ConsoleCommands.DigitsOf` | linux-0.0.1/kernel/console.c:483-485 | the digits of numbers below 1000, in bytes |
| `ConsoleCommands.CursorUp` | linux-0.0.1/kernel/console.c:494-497 | CUU: n lines up in the same column, 0 counted as 1, and nothing else changes; no move off the screen or from behind the last column; numbers just below 2^32 count as negative |
| `ConsoleCommands.CursorDown` | linux-0.0.1/kernel/console.c:498-501 | CUD and VPR: the same downwards |
| `ConsoleCommands.CursorRight` | linux-0.0.1/kernel/console.c:502-505 | CUF and HPR: the same to the right |
| `ConsoleCommands.CursorLeft` | linux-0.0.1/kernel/console.c:506-509 | CUB: the same to the left |
| `ConsoleCommands.NextLine` | linux-0.0.1/kernel/console.c:510-513 | CNL: to the start of the n-th line below, if it is on the screen |
| `ConsoleCommands.PreviousLine` | linux-0.0.1/kernel/console.c:514-517 | CPL: to the start of the n-th line above |
| `ConsoleCommands.ToColumn` | linux-0.0.1/kernel/console.c:490-493 | CHA and HPA: to column n of the line, counted from 1, if there is one |
| `ConsoleCommands.ToLine` | linux-0.0.1/kernel/console.c:518-521 | VPA: to line n in the same column, counted from 1, if there is one |
| `ConsoleCommands.ToPlace` | linux-0.0.1/kernel/console.c:522-526 | CUP and HVP for any two numbers: line m and column n, counted from 1, or no move |
| `ConsoleCommands.PlainSequence` | linux-0.0.1/kernel/console.c:472-486 | a sequence without digits is the one with 0 |
| `ConsoleCommands.ErasedDisplay` | linux-0.0.1/kernel/console.c:200-227 | ED 0, 1 and 2, cell by cell: from the cursor on, up to the cursor, everything; nothing for other numbers |
| `ConsoleCommands.ErasedLine` | linux-0.0.1/kernel/console.c:229-258 | EL 0, 1 and 2, cell by cell within the cursor's line |
| `ConsoleCommands.InsertedLines` | linux-0.0.1/kernel/console.c:311-370 | IL: n blank lines at the cursor's line, and those below moved down n |
| `ConsoleCommands.DeletedLines` | linux-0.0.1/kernel/console.c:339-390 | DL: n lines gone, those below moved up n, blank lines at the end |
| `ConsoleCommands.InsertedBlanks` | linux-0.0.1/kernel/console.c:297-360 | ICH: n blanks at the cursor, and the rest of the line moved right n |
| `ConsoleCommands.DeletedCharacters` | linux-0.0.1/kernel/console.c:324-380 | DCH: n characters gone, the rest of the line moved left n, blanks at its end |
| `ConsoleCommands.GraphicRendition` | linux-0.0.1/kernel/console.c:260-272 | SGR: bright for 1 and 4, reverse for 7, plain for 0 and 27, and no other change |
| `ConsoleCommands.TwoRenditions` | linux-0.0.1/kernel/console.c:260-272 | SGR with two numbers is one after the other |
| `ConsoleCommands.ScrollingRegion` | linux-0.0.1/kernel/console.c:548-556 | DECSTBM: lines m to n become the region exactly if m is above n and n is on the screen; no last line means the last of the screen |
| `ConsoleCommands.SavesCursor` | linux-0.0.1/kernel/console.c:557-559 | ESC [ s saves column and line of the cursor |
| `ConsoleCommands.RestoresCursor` | linux-0.0.1/kernel/console.c:560-562 | ESC [ u brings them back, and nothing else changes |
| `ConsoleCommands.TextShown` | linux-0.0.1/kernel/console.c:418-429 | printable text, cell by cell: attribute in the high byte, character in the low |
| `ConsoleCommands.FullLineIs` | linux-0.0.1/kernel/console.c:419-423 | after a full line a character comes where CR and LF would have put it |
| `ConsoleCommands.LineFeeds` | linux-0.0.1/kernel/console.c:431-432 | LF, VT and FF: one line down in the same column; on the last line of the region its lines move up and a blank one comes in |
| `ConsoleCommands.Controls` | linux-0.0.1/kernel/console.c:433-442 | CR goes to column 0, BS one column back but not past the first, and every other control character does nothing |
| `ConsoleCommands.TabIs` | linux-0.0.1/kernel/console.c:443-453 | HT: to the next column that 8 divides; behind a full line to column 8 of the next |
| `ConsoleCommands.RubOut` | linux-0.0.1/kernel/console.c:436-437 | the erase character blanks the cell before the cursor and goes there, unless it is at the start of the line |
| `ConsoleCommands.NextLineStart` | linux-0.0.1/kernel/console.c:459-460 | ESC E: to the start of the next line, if there is one |
| `ConsoleCommands.ReverseLine` | linux-0.0.1/kernel/console.c:461-462 | ESC M: one line up; on the first line of the region its lines move down |
| `ConsoleCommands.ForwardLine` | linux-0.0.1/kernel/console.c:463-464 | ESC D: as LF |
| `ConsoleCommands.OtherEscapes` | linux-0.0.1/kernel/console.c:465-471 | every other byte after ESC does nothing outside columns 55 and 56 |
| `ConsoleCommands.OtherSequences` | linux-0.0.1/kernel/console.c:487-563 | a sequence with any other final byte does nothing |
| `ConsoleMemory.ScrollUpMoves` | linux-0.0.1/kernel/console.c:134-146 | the block move and fill of a region scroll are the grid scroll, and touch only the window |
| `ConsoleMemory.ScrollDownMoves` | linux-0.0.1/kernel/console.c:149-163 | the same for the downward scroll |
| `ConsoleMemory.SlideScrolls` | linux-0.0.1/kernel/console.c:105-131 | sliding the window one line and blanking the new one scrolls the whole grid |
| `ConsoleMemory.RewindScrolls` | linux-0.0.1/kernel/console.c:109-123 | moving the window back to the start of video memory scrolls the grid all the same |
| `ConsoleMemory.FillErases` | linux-0.0.1/kernel/console.c:200-227 | a fill inside the window is an erase of the grid |
| `ConsoleMemory.RowChanges` | linux-0.0.1/kernel/console.c:229-258 | a change inside one line of memory is a change of one row of the grid |
| `ConsoleMemory.WindowsTrans` | linux-0.0.1/kernel/console.c:103-147 | changes inside the windows of one stretch and of the next are changes inside the windows of both |
| `ConsoleMemory.OneMoreInserted` | linux-0.0.1/kernel/console.c:362-370 | inserting n lines one at a time is inserting n lines at once |
| `Console.Terminal.constructor` | linux-0.0.1/kernel/console.c:576-586 | the window starts at SCREEN_START with the boot cursor |
| `Console.Terminal.GotoXY` | linux-0.0.1/kernel/console.c:69-85 | refines the grid's cursor move; pos stays origin + line * columns + column |
| `Console.Terminal.Scrup` | linux-0.0.1/kernel/console.c:103-147 | refines scrolling up, whichever branch is taken; stores only inside the window |
| `Console.Terminal.Slide` | linux-0.0.1/kernel/console.c:105-133 | hardware scrolling refines scrolling the grid, and scr_end never passes SCREEN_END |
| `Console.Terminal.Scrdown` | linux-0.0.1/kernel/console.c:149-163 | refines scrolling down; stores only inside the window |
| `Console.Terminal.LineFeed` | linux-0.0.1/kernel/console.c:165-173 | refines the grid's line feed |
| `Console.Terminal.ReverseIndex` | linux-0.0.1/kernel/console.c:175-183 | refines the grid's reverse index |
| `Console.Terminal.Delete` | linux-0.0.1/kernel/console.c:191-198 | refines rubbing out the character before the cursor |
| `Console.Terminal.CsiJ` | linux-0.0.1/kernel/console.c:200-227 | refines erasing in the display |
| `Console.Terminal.CsiK` | linux-0.0.1/kernel/console.c:229-258 | refines erasing in the line |
| `Console.Terminal.InsertChar` | linux-0.0.1/kernel/console.c:297-309 | the carry loop shifts the rest of the line by one |
| `Console.Terminal.DeleteChar` | linux-0.0.1/kernel/console.c:324-337 | the copy loop closes the gap |
| `Console.Terminal.InsertLine` | linux-0.0.1/kernel/console.c:311-322 | refines inserting a line and restores the region |
| `Console.Terminal.DeleteLine` | linux-0.0.1/kernel/console.c:339-350 | refines deleting a line, also line 0 where the window slides, and restores the region |
| `Console.Terminal.CsiAt` | linux-0.0.1/kernel/console.c:352-360 | inserts as many blanks as asked for, at most a line; stores only inside the window |
| `Console.Terminal.CsiP` | linux-0.0.1/kernel/console.c:372-380 | deletes as many characters as asked for, at most a line; stores only inside the window |
| `Console.Terminal.CsiL` | linux-0.0.1/kernel/console.c:362-370 | inserts as many lines as asked for, at most a screen; stores only inside the window |
| `Console.Terminal.CsiM` | linux-0.0.1/kernel/console.c:382-390 | deletes as many lines as asked for, at most a screen; stores only inside the windows that it slides through |
| `Console.Terminal.CsiAttributes` | linux-0.0.1/kernel/console.c:260-272 | the attribute after all parameters in turn |
| `Console.Terminal.PrintChar` | linux-0.0.1/kernel/console.c:418-429 | refines printing with the wrap before the character; stores only inside the window |
| `Console.Terminal.TabStop` | linux-0.0.1/kernel/console.c:443-453 | refines the tab with its wrap; stores only inside the window |
| `Console.Terminal.EscapeChar` | linux-0.0.1/kernel/console.c:455-471 | refines the byte after ESC, with the tests for 7 and 8 on the column as the code has them |
| `Console.Terminal.AbsoluteCommand` | linux-0.0.1/kernel/console.c:490-526 | refines the commands that name a place |
| `Console.Terminal.RelativeCommand` | linux-0.0.1/kernel/console.c:494-517 | refines the commands that move from the cursor (in numbers: `CursorUp`, `CursorDown`, `CursorRight`, `CursorLeft`, `NextLine`, `PreviousLine`) |
| `Console.Terminal.SetRegion` | linux-0.0.1/kernel/console.c:548-556 | refines setting the scrolling region |
| `Console.Terminal.ParameterChar` | linux-0.0.1/kernel/console.c:479-486 | refines the parameter state, 32-bit wrap included |
| `Console.Terminal.PutChar` | linux-0.0.1/kernel/console.c:416-565 | every byte in every state refines the grid model, whose sequences `ConsoleCommands` gives in numbers; the window stays inside video memory, and every cell that changes lies in a window shown during the byte |
| `Console.Terminal.ConWrite` | linux-0.0.1/kernel/console.c:408-567 | for every stream of bytes the visible window is the 25 by 80 grid of the model, so `ConsoleCommands` says of the window what each control character and sequence does; every cell that changes lies in a window shown on the way |
| `ExecArgs.StartPage` | linux-0.0.1/fs/exec.c:175-178 | a string that fits starts in an argument page; the wrapped difference of one that does not is beyond all of them |
| `ExecArgs.Exec.GetPages` | linux-0.0.1/fs/exec.c:177-182 | the loop makes exactly the pages down to the start present and takes exactly these; fails exactly when there are fewer frames |
| `ExecArgs.Exec.PutBytes` | linux-0.0.1/fs/exec.c:183-189 | a string that fits is stored whole right below the others; one that does not fit always ends in the panic or past the page table |
| `ExecArgs.Exec.CopyStrings` | linux-0.0.1/fs/exec.c:162-192 | on success the strings stand packed in order below the old ones, which are untouched; out of memory exactly when there are fewer frames than the strings that fit need; otherwise accepted if and only if they fit |
| `ExecArgs.OneMore` | linux-0.0.1/fs/exec.c:170-190 | the pages that copying has asked for before string k |
| `ExecArgs.WhenReady` | linux-0.0.1/fs/exec.c:270-277 | copying lasts if and only if the strings stay below 131068 bytes and there is a frame for every page they reach |
| `ExecArgs.WhenDerailed` | linux-0.0.1/fs/exec.c:270-277 | for strings that fit, copying goes wrong if and only if there is an argument and the frames do not last for the environment |
| `ExecArgs.PanicIsReached` | linux-0.0.1/fs/exec.c:173-185 | two calls that end in the panic: one argument and one variable with no frame free, and one argument a byte too long |
| `ExecArgs.Exec.CopyBoth` | linux-0.0.1/fs/exec.c:270-271 | the outcome of both calls of copy_strings, for any strings and any number of frames |
| `ExecArgs.Exec.PrepareArgs` | linux-0.0.1/fs/exec.c:270-277 | for any strings and any number of frames: ready, rejected and broken each exactly when the lengths and the frames say so; a rejection gives back every page |
| `ExecTables.OneString` | linux-0.0.1/fs/exec.c:129-132 | a string read at an address is determined by memory |
| `ExecTables.OneVector` | linux-0.0.1/fs/exec.c:129-138 | a zero-terminated vector can be parsed in one way only |
| `ExecTables.Stack.PutVector` | linux-0.0.1/fs/exec.c:129-138 | the vector points, in order, at exactly the given strings and ends with 0; nothing else changes |
| `ExecTables.Stack.CreateTables` | linux-0.0.1/fs/exec.c:116-140 | argc, argv and envp at the stack pointer give back exactly the arguments and the environment; the tables lie below the strings and the pointer is aligned |
| `ExecTables.Stack.ChangeLdt` | linux-0.0.1/fs/exec.c:209-217 | byte j of argument page i is at 64 MB - (32 - i) * 4096 + j, and zero where there is no page |
| `ExecTables.HeaderIs` | linux-0.0.1/fs/exec.c:126-128 | argc, argv and envp are the twelve bytes at the stack pointer |
| `ExecTables.NewStack` | linux-0.0.1/fs/exec.c:269-291 | from the caller's strings to the new stack: the twelve bytes at the stack pointer are argc, argv and envp, low byte first, and what the program parses from there is what it was given; it succeeds exactly when the strings are short enough and there are frames for them |
| `DescriptorState.OpenIsCounted` | linux-0.0.1/fs/open.c:186-190 | a file with a descriptor has a positive count, so "Close: file count is 0" cannot happen |
| `DescriptorState.UncountedIsClosed` | linux-0.0.1/fs/open.c:134-139 | a file table entry with count 0 has no descriptor, so it may be reused |
| `DescriptorState.CountBound` | linux-0.0.1/fs/open.c:139 | a count is at most 20 per task |
| `DescriptorState.OpenedStep` | linux-0.0.1/fs/open.c:139 | opening keeps f_count equal to the number of descriptors |
| `DescriptorState.ClosedStep` | linux-0.0.1/fs/open.c:185-191 | closing keeps it, and marks only open descriptors close-on-exec |
| `DescriptorState.ForkedStep` | linux-0.0.1/kernel/fork.c:118-120 | copying a task's descriptors keeps it |
| `DescriptorState.ReleasedStep` | linux-0.0.1/kernel/exit.c:13-27 | so does freeing a task that has closed everything |
| `DescriptorState.RefsInIs` | linux-0.0.1/fs/open.c:139 | the references of a task to a file are as many as its descriptors that point there |
| `Descriptors.FileTable.constructor` | linux-0.0.1/fs/file_table.c:1-3 | nothing is open |
| `Descriptors.FileTable.SysClose` | linux-0.0.1/fs/open.c:172-195 | this descriptor is empty and unmarked, the count of its file one less, nothing else changes, and the result says whether it was the last; -EINVAL changes nothing |
| `Descriptors.FileTable.SysOpen` | linux-0.0.1/fs/open.c:121-165 | the lowest free descriptor points at the lowest unused file, whose count is 1, unmarked, or nothing changes; fails exactly when one of them is missing or the name cannot be opened |
| `Descriptors.FileTable.DupFd` | linux-0.0.1/fs/fcntl.c:12-28 | the lowest free descriptor from the argument on shares the file; each error code exactly in its case |
| `Descriptors.FileTable.SysDup` | linux-0.0.1/fs/fcntl.c:36-39 | the lowest free descriptor shares the file |
| `Descriptors.FileTable.SysDup2` | linux-0.0.1/fs/fcntl.c:30-34 | the new descriptor shares the file whatever it was before; onto itself it is closed and refused |
| `Descriptors.FileTable.SetCloseOnExec` | linux-0.0.1/fs/fcntl.c:52-57 | marks or unmarks open descriptors only |
| `Descriptors.FileTable.TakeFiles` | linux-0.0.1/fs/pipe.c:59-64 | the two lowest unused files; fewer exactly when there are fewer |
| `Descriptors.FileTable.TakeFds` | linux-0.0.1/fs/pipe.c:67-72 | the two lowest free descriptors; fewer exactly when there are fewer |
| `Descriptors.FileTable.SysPipe` | linux-0.0.1/fs/pipe.c:52-92 | the two lowest free descriptors on two unused files, or everything exactly as before; -1 exactly when two files, two descriptors or the inode are missing |
| `Descriptors.FileTable.Fork` | linux-0.0.1/kernel/fork.c:118-120 | the child has the parent's 20 descriptors and marks, and every file one reference more for each of them |
| `Descriptors.FileTable.ExecClose` | linux-0.0.1/fs/exec.c:281-284 | closes exactly the marked descriptors of the task and clears all marks |
| `Descriptors.FileTable.ExitClose` | linux-0.0.1/kernel/exit.c:92-94 | closes everything the task has open and nothing of others |
| `Descriptors.FileTable.Run` | linux-0.0.1/fs/open.c:121-195 | after any run of calls by any tasks every f_count is the number of descriptors that point at the file, and marks are on open descriptors only |
| `Pipe.Held` | linux-0.0.1/include/linux/fs.h:104-108 | the bytes in the ring, oldest first, also across the wrap |
| `Pipe.Pushed` | linux-0.0.1/fs/pipe.c:44-45 | storing at the head appends one byte |
| `Pipe.Popped` | linux-0.0.1/fs/pipe.c:19-20 | reading at the tail removes the oldest byte |
| `Pipe.Fifo.constructor` | linux-0.0.1/fs/inode.c:202-216 | an empty pipe with two ends |
| `Pipe.Fifo.WakeUp` | linux-0.0.1/kernel/sched.c:179-185 | wakes whoever sleeps |
| `Pipe.Fifo.Read` | linux-0.0.1/fs/pipe.c:7-24 | returns the oldest bytes, as many as there are and asked for; sleeps exactly when empty with a writer left |
| `Pipe.Fifo.Write` | linux-0.0.1/fs/pipe.c:26-50 | appends a prefix of the bytes; stops early only when full or broken, and sleeps only when full with a reader left |
| `Pipe.Fifo.CloseEnd` | linux-0.0.1/fs/inode.c:127-140 | wakes the other end and keeps the bytes |
| `Pipe.Fifo.Run` | linux-0.0.1/fs/pipe.c:7-50 | over every interleaving the bytes read and then the bytes in the ring are the bytes written, in order; at most 4095 are held; the two ends never both sleep |
| `Processes.TriedAreMany` | linux-0.0.1/kernel/fork.c:136 | the numbers tried in k rounds are k different ones, also across the wrap |
| `Processes.RoundsBound` | linux-0.0.1/kernel/fork.c:135-138 | pigeonhole: they cannot all be taken by fewer than k tasks |
| `Processes.FirstIsNext` | linux-0.0.1/kernel/fork.c:135-138 | the number found is the first above last_pid that no task has, or, if there is none, the first from 1 on |
| `Processes.ProcessTable.PidTaken` | linux-0.0.1/kernel/fork.c:137-138 | decides whether some task has the number |
| `Processes.ProcessTable.FindEmptyProcess` | linux-0.0.1/kernel/fork.c:131-143 | ends within one round more than there are tasks with a positive number that no task has, the first such; and the lowest free slot, or -EAGAIN exactly when there is none |
| `Processes.ProcessTable.Fork` | linux-0.0.1/kernel/fork.c:68-143 | the child gets the first unused number after last_pid, wrapping to 1; live tasks keep different numbers |
| `Processes.ProcessTable.Exit` | linux-0.0.1/kernel/exit.c:13-27 | freeing a slot keeps them different |
| `NumberFormat.RawReadsBack` | linux-0.0.1/kernel/vsprintf.c:63-66 | the digits read back to the number in every base 2 to 36 |
| `NumberFormat.RawLength` | linux-0.0.1/kernel/vsprintf.c:44 | a number below 2^k has at most k digits in any base, so tmp is long enough |
| `NumberFormat.NoLeadingZero` | linux-0.0.1/kernel/vsprintf.c:63-66 | a non-zero number has no leading zero |
| `NumberFormat.DigitsAre` | linux-0.0.1/kernel/vsprintf.c:45-66 | a number below the base is that entry of the alphabet, and a larger one is written as the quotient's digits and then the remainder's |
| `NumberFormat.SignIs` | linux-0.0.1/kernel/vsprintf.c:53-57 | '-' for a negative signed number; else '+' or a blank if asked for, plus before blank; else nothing |
| `NumberFormat.PrefixIs` | linux-0.0.1/kernel/vsprintf.c:74-80 | 0 before octal and 0x or 0X before hexadecimal digits, if asked for |
| `NumberFormat.FieldIs` | linux-0.0.1/kernel/vsprintf.c:58-90 | the field character by character: sign, prefix, zeros up to the precision, digits; and what is left of the width as blanks behind, zeros after the prefix, or blanks in front, by the flags |
| `NumberFormat.MagnitudeIs` | linux-0.0.1/kernel/vsprintf.c:53-55 | the digits shown are those of the absolute value, the smallest int included, or of the unsigned bits |
| `NumberFormat.FieldWidth` | linux-0.0.1/kernel/vsprintf.c:58-90 | the field has exactly max(width, sign + prefix + max(digits, precision)) characters |
| `NumberFormat.FieldReadsBack` | linux-0.0.1/kernel/vsprintf.c:41-91 | blanks, sign and prefix are followed by digits that read back to the number, then by blanks only |
| `NumberFormat.FillDigits` | linux-0.0.1/kernel/vsprintf.c:62-66 | the division loop leaves the digits backwards in tmp, at most 32 of them |
| `NumberFormat.WriteField` | linux-0.0.1/kernel/vsprintf.c:69-89 | the padding loops write exactly the field |
| `NumberFormat.Number` | linux-0.0.1/kernel/vsprintf.c:41-91 | writes exactly the field, for every number, base, width, precision and flags; nothing for an impossible base |

## Left out

- Hardware: ports, descriptors, interrupt gates, floating point state, string instructions other than by their loop meaning, and boot code other than the state it leaves.
- Virtual memory: memory is counted in 32-bit words and a page-table word is a record of frame, present and write bits; segment limits are preconditions of loads and stores; the contents of task structures, signals and parents are not modelled, and freeing a task structure is a step of its own.  The argument pages of `TaskMemory` are words and those of `ExecTables` are bytes; the two views of a page are not connected.
- Virtual memory: `do_exit` inside `un_wp_page` and `do_no_page` is made by the method that called them, since the C functions do not come back from it.
- PagingRuns: verify_area is an operation of the run for areas inside the segment; for any other area `VerifyArea` is proved alone, and the store behind it would fault on the segment limit.
- PagingRuns.Run: which free frame is taken is left open, and which write bits a failed fork has taken from the parent by then; neither has an effect on an outcome.
- PagingRuns: address translations follow the page tables at once.  `un_wp_page` enters a new frame for a present page without `invalidate` (mm/memory.c:283-298), which copy_page_tables and free_page_tables do call (lines 192 and 250); with a stale translation the processor could still reach the shared frame, so `PagingRuns.StepPut` and `PagingLaws.PutAfterVerify`, and every store after a copy, rest on this.
- PagingLaws.ForkReads: nothing is said of what a task reads in the page directory, which is frame 0 and which task 0 lends to its children; the same for `StoreReads`, `QuietReads` and `OthersRead`.
- PagingState.CountBelowTasks: counts are natural numbers; the bound shows that the 16-bit field holds them.
- TaskMemory.TaskMemory.DoNoPage: when `put_page` fails the frame stays counted; the contract keeps it among the frames that the kernel holds.
- File system: all inodes of the device are in memory; `bread` returns the block's data, which is what the buffer cache is proved to do; reads do not fail; times and dirty marks of inodes are not modelled.  Calls on a device are run one at a time: the source sleeps inside `bmap`, `file_write` and `truncate` (in `bread`, and in `getblk` within `new_block`, fs/bitmap.c:88), and two tasks that create the same hole at once can both see no zone, take one each, and leave one marked and unreachable.
- FileSystem.Device.FreeBlock: nobody else holds the buffer of a block that is freed, and panics are preconditions that the callers are proved to meet.
- FileSystem.Device.FileWrite: positions beyond the largest file are excluded, where the source panics; the file position and the size are 32-bit values there.
- Buffer cache: the disk is free of faults in the sequential model, where calls are run one at a time; `b_count` is a natural number where the source has 8 bits.
- BufferSharing.Sharing.TakeOff: any unused buffer may be chosen, which covers the scan of the free list and its waits; contents are not modelled in the interleaved model, where a dirty buffer is off the lists before it is written.
- `interruptible_sleep_on`: a task that sleeps again after waking a later arrival need not be woken by it, so the chains are those of `sleep_on` only.
- WaitQueue: sleep_on up to `schedule` is one step; a wake_up from an interrupt inside it is not modelled.  `rw_abs_hd` calls sleep_on without cli (kernel/hd.c:394), and the interrupt that ends a request may wake the same queue there.
- Scheduler.WaitIsBounded: priorities stay within a bound p along the run, since `sys_nice` lets them grow without limit.
- HardDisk: sector contents, buffer locks, the wait for the controller and an interrupt while `sorting` is set are not modelled; add_request and every handler are atomic.
- HardDisk.InterruptsAreBounded: assumes that the controller raises DRQ; a write that never gets DRQ is reset again and again.
- Console: addresses count 16-bit cells.  Cursor and origin registers are not modelled.
- Console.Terminal.EscapeChar: `ESC Z` has no effect here; its answer goes through the line discipline, which is not part of this model.
- Console.Terminal.PutChar: the same for `ESC Z`.
- Console.Terminal.ConWrite: the same for `ESC Z`.
- ExecArgs.Exec.CopyStrings: the caller's strings are given as values, not read from user memory page by page.
- Exec: permissions, the executable's header and reading its pages; the tables' pages are memory that reads as zeros until it is written.
- Descriptors: names, inodes and terminals; a call is one step, because no other task uses the caller's descriptors while it sleeps.
- Descriptors.FileTable.SysOpen: what open_namei and the terminal check answer is a parameter.
- Pipe: one reader and one writer; signals are not modelled.
- NumberFormat.Number: width and precision are unbounded integers.
- Block devices, character devices, terminals, path names, signals, mounting and the remaining system calls.
