# BirdOS in Dafny

BirdOS is an xv6-style kernel for RISC-V with its own additions: a buffer cache of hash
buckets, reference-counted frames with copy-on-write fork, double-indirect files, an O(1)
scheduler and a small network stack. This project models the parts where its correctness
arguments are hard and proves them for all inputs, all interleavings or all reachable states.

Protocols that several CPUs or processes take part in are state machines with one step per
lock section or disk write. In the log's machine a process uses a buffer in separate steps
(bget, the sleep lock, its release, the decrement), and bget may take any buffer of count 0 for
another block, whoever points to it. Code that changes data in place is a class whose methods are
proved against specification functions. `virtio_disk_rw` is an atomic write of one block,
`swtch` a transfer of control.

| files | subject |
|---|---|
| `LogMachine`, `LogTheorems`, `Log` | redo log: the machine with crashes, its theorems, the code that takes its steps |
| `BioModel`, `Bio` | buffer cache: bucket lists, victims, contents |
| `CowMachine`, `CowInvariant`, `CowSteps`, `CowTheorems`, `CowModes`, `CowPaths` | copy-on-write fork against a fork that copies every page: contents, the right to write, what fork and its rollback achieve |
| `Kalloc`, `PageTable`, `Vm`, `Freewalk` | free lists, the Sv39 tree as a flat map, the operations on it |
| `FsModel`, `FileBlocks`, `FsLemmas`, `Fs`, `FileIo`, `FlatFiles`, `TenBlocks` | block ownership, a file's layout on disk, bmap and itrunc, files as byte sequences, what a write logs |
| `Ctz`, `RunQueue`, `RunqOrder`, `SchedO1`, `Aging` | the run queue's lists as queues, its operations, dynamic priorities over time |
| `RunState`, `RunPaths`, `Sleeplock`, `SleepPaths` | hand-off between CPUs, sleep locks: what every run keeps, what each operation achieves |
| `HeapModel`, `Umalloc` | the user heap |
| `ShGrammar`, `ShTheorems`, `ShLayers`, `ShLex`, `Sh`, `ShText`, `ShPrint`, `Grep` | the shell's parser, the matcher of grep |
| `Pipe`, `NetModel`, `Wire`, `Net` | pipes, UDP over IP over Ethernet, ARP, and their bytes on the wire |
| `Wrappers` | shared definitions |

## Model

| member | source | states |
|---|---|---|
| `LogTheorems.CrashAtomicity` | kernel/filesystem/log.c:68-202 | In every run of operations, buffer lookups, sleep locks, commits and crashes (also during recovery) in which no process of a boot looks up a block that boot's recovery replayed: recovery yields the initial contents with a whole number of committed groups applied, in order; each group holds all updates of each of its operations, and no operation is in two groups. |
| `LogTheorems.NothingBeforeHeader` | kernel/filesystem/log.c:178-202 | Until a commit's header write, no step and no crash changes what recovery would produce, so no update reaches its home block early. |
| `LogTheorems.ReplayedBlockIff` | kernel/filesystem/log.c:68-82 | Among the runs of a boot that look up no replayed block other than b, every one keeps all committed updates if and only if b was not replayed; and this stays so among those of them in which no replayed block is ever written, so merely reading b can lose another block's update. |
| `LogTheorems.BootKeepsUpdatesIff` | kernel/filesystem/log.c:115-122 | A boot keeps every committed update, in every run up to the next crash, if and only if it found the log header empty. |
| `LogTheorems.LogNeverOverflows` | kernel/filesystem/log.c:126-141 | If each operation logs at most nine distinct blocks, begin_op's admission keeps every log_write of every run below its panic. |
| `LogTheorems.FullBudgetOverflows` | kernel/filesystem/log.c:214-234 | From any boot, a run in which no operation logs more than the ten blocks begin_op reserves for it reaches log_write's panic. |
| `LogMachine.StepPins` | kernel/filesystem/bio.c:77-201 | Every step that looks up no replayed block keeps each other cached block's count equal to its pin, while it holds an unwritten logged change, plus the processes that point to its buffer; each of these points to the block it asked for, and no update is lost. |
| `Log.Log.Commit` | kernel/filesystem/log.c:192-202 | commit's disk writes are, in order, steps of the log machine; afterwards the header is empty, every home block holds what readers saw, and exactly one group more is committed if anything was logged. |
| `Log.Log.RecoverFromLog` | kernel/filesystem/log.c:115-122 | Recovery's disk writes are steps of the log machine; each home block ends as its logged copy if the header named it and unchanged otherwise, and the header is empty. |
| `Log.Log.BeginOp` | kernel/filesystem/log.c:125-141 | An operation is admitted exactly when no commit is in progress and the reserved blocks fit. |
| `Log.Log.EndOp` | kernel/filesystem/log.c:145-174 | The last operation out commits, leaving every home block on disk as readers saw it and the log empty; any other leaves disk and header alone. |
| `Log.Log.LogWrite` | kernel/filesystem/log.c:213-234 | log_write by the owner of a buffer's sleep lock is one machine step: the block the buffer stands for is absorbed if it is in the header, otherwise appended and pinned. |
| `BioModel.Walk` | kernel/filesystem/bio.c:51-72 | Following next from a bucket's head meets each buffer of that bucket once, no other, and comes back to the head. |
| `BioModel.FreeIsClean` | kernel/filesystem/bio.c:100-141 | In a coherent cache, a valid buffer with no reference holds what the disk holds, so eviction loses nothing. |
| `BioModel.RecountIff` | kernel/filesystem/bio.c:182-218 | Setting a buffer's count keeps the cache coherent if and only if the count is not 0 or the buffer holds no unwritten change. |
| `BioModel.ChangeIff` | kernel/filesystem/log.c:208-213 | A store into a buffer keeps the cache coherent if and only if the count is not 0 or the contents are the disk's. |
| `Bio.Bcache.constructor` | kernel/filesystem/bio.c:51-72 | binit builds a coherent cache: well-formed lists, every buffer in bucket 0, nothing valid. |
| `Bio.Bcache.Bget` | kernel/filesystem/bio.c:77-154 | The block's one buffer with one more reference; otherwise the oldest free buffer (first in list order among equally old) of the first bucket in cyclic order that has one, moved to the block's bucket; the panic exactly when all buffers are referenced. A count at its maximum wraps to 0, and coherence is lost exactly when that buffer holds an unwritten change. |
| `Bio.Bcache.Bread` | kernel/filesystem/bio.c:157-169 | The returned buffer holds the block's latest contents; no other buffer changes; coherence is lost only as in Bget. |
| `Bio.Bcache.Store` | kernel/filesystem/log.c:208-213 | A holder's store becomes the block's latest contents; coherence is lost exactly when the count has wrapped to 0 and the contents differ from the disk's. |
| `Bio.Bcache.Bwrite` | kernel/filesystem/bio.c:171-178 | The disk then holds the block's latest contents and the cache stays coherent. |
| `Bio.Bcache.Brelse` | kernel/filesystem/bio.c:180-201 | One reference fewer, with C's wrap-around; the cache stays coherent exactly unless the last reference to an unwritten change went. |
| `Bio.Bcache.Bpin` | kernel/filesystem/bio.c:204-210 | One reference more; coherence is lost exactly on wrap-around over an unwritten change. |
| `Bio.Bcache.Bunpin` | kernel/filesystem/bio.c:212-218 | One reference fewer, with the same exact condition as brelse. |
| `CowTheorems.ForkRefinesEagerCopy` | kernel/mm/vm.c:319-350 | Over any interleaving of faults, forks (with failure and rollback), stores, copyouts into frames of count 1, unmaps and exits: every process not still being built or torn down has exactly the pages, with the contents, of a memory that copies every page at fork. |
| `CowModes.ForkKeepsModes` | kernel/mm/vm.c:319-350 | In every reachable state a page has PTE_W or PTE_F exactly if it would be writable had fork copied every page: fork takes nobody's right to write and gives it to nobody. |
| `CowModes.StoreGoesThrough` | kernel/mm/kalloc.c:178-223 | In every reachable state an idle process can store to each of its user pages that would be writable with eager copies, at once or after a page fault; the fault needs a free frame only if the frame has other references. |
| `CowPaths.ForkSucceeds` | kernel/mm/vm.c:319-350 | In every reachable state an idle process can fork into any free slot: the child ends with exactly the parent's pages over the same frames, both sides have traded PTE_W for PTE_F, each frame is counted once more for each page that maps it, and nothing else changes. |
| `CowPaths.FailedForkUndone` | kernel/mm/vm.c:319-350 | A fork that fails at any page of the parent can be undone: no child, every count and free frame as before, and only the parent's pages up to there marked copy-on-write. |
| `CowPaths.PageGivenUp` | kernel/mm/kalloc.c:62-90 | In every reachable state an idle process can give up any page: its frame loses one reference, and goes back to a free list exactly with the last one. |
| `CowTheorems.WritableIsUnshared` | kernel/mm/kalloc.c:160-223 | In every reachable state a page with PTE_W maps a frame of reference count 1 that no other page maps, although cowalloc reads the count without the lock. |
| `CowTheorems.FrameAccounting` | kernel/mm/kalloc.c:62-136 | In every reachable state a frame's count is the number of its references (counted leaves, copies in flight, pending frees, kernel pages), and it is 0 exactly when the frame is on the free list or on its way there, never both. |
| `CowTheorems.CopyoutIsolatedIff` | kernel/mm/vm.c:368-393 | copyout into a user page not marked copy-on-write leaves all memories as with eager copies, whatever is written, if and only if no other page shares its frame. |
| `CowTheorems.CountOneUnshared` | kernel/mm/kalloc.c:230-238 | A page whose frame has count 1 meets that condition, and no other page maps the frame. |
| `CowTheorems.ReadOnlyPageLeaks` | kernel/mm/vm.c:374-386 | From any boot with a frame and a one-page first process, a run ends with a child's read-only user page, not marked copy-on-write, whose frame is shared: the condition of CopyoutIsolatedIff fails. |
| `Kalloc.Kmem.constructor` | kernel/mm/kalloc.c:30-56 | After kinit every frame is on exactly one free list, once, with count 0. |
| `Kalloc.Kmem.Kfree` | kernel/mm/kalloc.c:62-90 | The count goes down by one; at 0 the frame is pushed on this CPU's list and the lists stay acyclic and disjoint, otherwise they do not change. |
| `Kalloc.Kmem.Kalloc` | kernel/mm/kalloc.c:95-136 | The top of this CPU's list, else of the lowest CPU's that has one, with count 1; 0 exactly when no frame is free. |
| `Kalloc.Kmem.AddRef` | kernel/mm/kalloc.c:240-248 | One reference more on a frame that is in use and on no other; -1 exactly for an address that is no frame; the free lists stay right. |
| `Kalloc.Kmem.FreeBytes` | kernel/mm/kalloc.c:138-152 | A page's size times the number of frames whose reference count is 0. |
| `PageTable.WalkIsFlat` | kernel/mm/vm.c:74-95 | The three-level walk of a well-formed tree gives the flat map from page number to entry. |
| `Vm.Vm.Walk` | kernel/mm/vm.c:74-95 | walk finds the page's level-0 slot, adding tables if asked; whether it succeeds or runs out of frames, no translation changes. |
| `Vm.Vm.MapPages` | kernel/mm/vm.c:153-173 | The translations of exactly the range's first pages are added, all of them on success, fewer only when frames run out. |
| `Vm.Vm.Uvmunmap` | kernel/mm/vm.c:178-201 | Exactly the range is removed; with do_free each frame loses one reference per page and is free exactly at 0; no frame that stays in use changes. |
| `Vm.Vm.Uvmdealloc` | kernel/mm/vm.c:267-279 | Exactly the whole pages between the two sizes are removed and released. |
| `Vm.Vm.Uvmalloc` | kernel/mm/vm.c:234-260 | All or nothing: every new page mapped to its own frame, fresh from the free list and zeroed, or 0 with no translation changed and every data frame given back; no frame that was in use changes, and nothing happens when the new size is smaller. |
| `Freewalk.Freewalk` | kernel/mm/vm.c:283-302 | Exactly the tables below a page-table page, and it, are freed, each once; leaf entries are passed over. |
| `Freewalk.WholeTree` | kernel/mm/vm.c:283-302 | From the root those are all the tables of the tree. |
| `Fs.Fs.Balloc` | kernel/filesystem/fs.c:66-88 | The lowest free block, never 0 nor an owned one; the panic exactly when no bit is clear. |
| `FileBlocks.SlotIsEntry` | kernel/filesystem/fs.c:381-434 | The slot bmap looks at for block bn, for every bn below the maximum, is entry bn of the list: the eleven direct pointers, the words of the single-indirect block, then the words of each block the double-indirect block names, in order, zeros under a missing pointer. |
| `FileBlocks.ByteIsEntry` | kernel/filesystem/fs.c:508-529 | A file's byte at an offset is that byte of its blocks laid end to end. |
| `Fs.Fs.Bmap` | kernel/filesystem/fs.c:381-434 | The block of a file position at any of three levels (by SlotIsEntry, that entry of the file's block list), allocated if missing; every bit stays set exactly for metadata or one slot's block, slots are only filled, every file reads the same. |
| `Fs.Fs.Itrunc` | kernel/filesystem/fs.c:439-488 | Exactly the blocks reachable from the inode are freed, each once, so "freeing free block" cannot happen; the file is empty and no other file changes. |
| `FileIo.Readi` | kernel/filesystem/fs.c:508-529 | What reaches the destination is the file's bytes from the offset, as many as asked, available and deliverable; readi reports whole chunks of it; a file without holes is read without allocating or logging anything. |
| `FileIo.Writei` | kernel/filesystem/fs.c:535-566 | What can be copied is laid over the file, also the first bytes of a chunk whose copy fails, which are not counted; the size becomes at least the end of the whole chunks, no other byte of any file changes and no hole appears; -1, with nothing changed, exactly on a bad range; n is reported even when a copy fails; every block of the whole chunks and every block taken is logged, and the lowest free ones are taken first. |
| `FileIo.ChunkLogBound` | kernel/filesystem/file.c:165-189 | A write of at most three blocks' worth of bytes at any offset logs at most 8 blocks (4 data, 3 pointer, 1 inode) and the bitmap blocks it allocates from. |
| `FileIo.ChunkWithinBudget` | kernel/filesystem/file.c:165-189 | Such a chunk is within the nine blocks that never overflow the log when the blocks it reaches are described by one bitmap block. |
| `TenBlocks.TenBlockChunk` | kernel/filesystem/file.c:165-189 | The bound is reached: on a disk whose free blocks straddle two bitmap blocks, a chunk across the border between single- and double-indirect blocks completes and logs exactly ten. |
| `FileIo.Filewrite` | kernel/filesystem/file.c:143-189 | From an offset inside the file, the chunks lay over it as much of the source as can be read, count whole chunks only, and go on to the end unless the file would outgrow its maximum, the disk is full, or the source has failed and the offset has passed the end of the file; -1 with nothing changed from an offset past the end, for a negative count or without permission; every chunk's transaction meets ChunkLogBound. |
| `FlatFiles.Replay` | kernel/filesystem/fs.c:508-566 | Any run of reads and writes over all files that does not run out of blocks: files and answers are those of plain byte sequences; only the files that are read must have no holes to begin with. |
| `RunState.RunnableIffOnDuty` | kernel/proc/proc.c:683-726 | In every reachable state of any number of CPUs and processes, with wakeups by processes and by interrupts in the scheduler: a process whose lock is free is RUNNABLE iff it is on the run queue or held by exactly one scheduler between pick and lock, and not both. |
| `RunState.OneCpuEach` | kernel/proc/proc.c:755-816 | No process is current on two CPUs; one that is current is RUNNING, or that CPU holds its lock. |
| `RunState.NeverRefused` | kernel/proc/proc.c:706-716 | The scheduler's branch for a picked process that is not RUNNABLE is never taken. |
| `RunState.GuardsIdle` | kernel/proc/sched_o1.c:63-66 | A process about to be enqueued is never queued already, and no zombie or unused one is: runq_enqueue's guard and freeproc's dequeue are never needed. |
| `RunState.InterruptWakes` | kernel/interrupt/trap.c:223-228 | In any reachable state an interrupt on a CPU in the scheduler can wake and queue any sleeper whose lock is free. |
| `RunPaths.ProcessWakes` | kernel/proc/proc.c:825-841 | In every reachable state a running process can wake any sleeper whose lock is free: RUNNABLE, queued, nothing else changed. |
| `RunPaths.ForkStarts` | kernel/proc/proc.c:388-398 | Likewise fork can make any unused slot whose lock is free a RUNNABLE, queued process. |
| `RunPaths.SchedulerRuns` | kernel/proc/proc.c:683-720 | In every reachable state a CPU in the scheduler can run any queued process whose lock is free: off the queue, RUNNING, current there, its lock held. |
| `RunPaths.YieldQueues` | kernel/proc/proc.c:755-765 | yield ends with the process RUNNABLE and queued, its lock free and the CPU back in the scheduler. |
| `RunPaths.SleepStops` | kernel/proc/proc.c:790-821 | sleep ends with the process SLEEPING and not queued, its lock free and the CPU back in the scheduler. |
| `RunPaths.ExitStops` | kernel/proc/proc.c:433-512 | exit ends likewise with a ZOMBIE. |
| `RunPaths.WaitReaps` | kernel/proc/proc.c:516-573 | wait can free the slot of any zombie whose lock is free, and changes nothing else. |
| `Sleeplock.MutualExclusion` | kernel/lock/sleeplock.c:21-41 | In every interleaving at most one process has the sleep lock, the one it names. |
| `Sleeplock.NoLostWakeup` | kernel/proc/proc.c:790-841 | Whenever the inner spinlock is free, nobody sleeps or is committed to sleep on an unlocked sleep lock. |
| `SleepPaths.FreeLockTaken` | kernel/lock/sleeplock.c:21-31 | In every reachable state acquiresleep of a free lock takes it and names the process. |
| `SleepPaths.HeldLockSleeps` | kernel/lock/sleeplock.c:21-31 | acquiresleep of a held lock ends asleep with every lock as it was. |
| `SleepPaths.WokenAsksAgain` | kernel/proc/proc.c:790-821 | A woken sleeper asks for the lock again. |
| `SleepPaths.KillWakes` | kernel/proc/proc.c:881-905 | kill wakes a sleeper. |
| `SleepPaths.ReleaseWakesAll` | kernel/lock/sleeplock.c:33-41 | releasesleep frees the lock and wakes everyone who sleeps on it. |
| `Ctz.CtzLowest` | kernel/proc/sched_o1.c:32-40 | For every nonzero 64-bit word the de Bruijn table gives the position of the lowest set bit. |
| `RunqOrder.BucketAppended` | kernel/proc/sched_o1.c:63-78 | Following next from the heads: an enqueued process comes after everyone already in its bucket, and no other bucket changes. |
| `RunqOrder.BucketRemoved` | kernel/proc/sched_o1.c:81-100 | Following next from the heads: a removed process is gone and everyone else is where they were. |
| `RunqOrder.BucketIs` | kernel/proc/sched_o1.c:63-100 | Following next from a bucket's head meets each process queued in it, once, and no other. |
| `SchedO1.PickIsFront` | kernel/proc/sched_o1.c:103-110 | The process picked is the first met from its bucket's head, and every lower bucket is empty. |
| `SchedO1.Runq.Enqueue` | kernel/proc/sched_o1.c:63-78 | A process not queued goes to the tail of the bucket of its dynamic priority; lists and bitmap stay right. |
| `SchedO1.Runq.Remove` | kernel/proc/sched_o1.c:81-100 | Exactly that process leaves its list, and the bucket's bit is cleared exactly when it empties. |
| `SchedO1.Runq.Pick` | kernel/proc/sched_o1.c:103-110 | Takes out the first process of the lowest non-empty bucket, as a linear scan would; none exactly when the queue is empty. |
| `SchedO1.Runq.SetPriority` | kernel/proc/proc.c:25-52 | The first process with the pid gets the priority and, if queued, moves to the tail of the new bucket; -1 exactly when there is none. |
| `SchedO1.Runq.Tick` | kernel/proc/sched_o1.c:118-152 | Exactly the queued processes have waited one tick more and nobody joins or leaves the queue; every bucket then holds, in order, those of its processes whose dynamic priority keeps them there, followed by the arrivals from the other buckets, lowest first, each in its order; only the running process is charged. |
| `Aging.BaseBucket` | kernel/proc/sched_o1.c:43-51 | With less than five ticks of waiting and of running, a process is in the bucket of its priority, 0 to 20. |
| `Aging.WaitingRaises` | kernel/proc/sched_o1.c:43-51 | Five more ticks of waiting raise the bucket by exactly one, unless it is 20 or the sum is still below 0. |
| `Aging.RunningLowers` | kernel/proc/sched_o1.c:43-51 | Five more ticks of running lower it by exactly one, unless it is 0 or the sum is still above 20. |
| `Aging.Monotone` | kernel/proc/sched_o1.c:43-51 | The bucket does not fall with priority or waiting, nor rise with running. |
| `Aging.WaitingFor` | kernel/proc/sched_o1.c:43-51 | Five times k more ticks of waiting, from a sum that is not negative, raise it by k, up to 20. |
| `Aging.FiveTicks` | kernel/proc/sched_o1.c:118-152 | A process queued through five ticks, whoever runs, ends one bucket higher unless it is at 20 or its sum is below 0. |
| `Aging.Contend` | kernel/proc/proc.c:683-720 | Two processes, one of which gives up the CPU every tick and asks again: the other is passed over in all n turns, for every n, if and only if it starts in a higher bucket, however long it waits; otherwise it is taken first. |
| `HeapModel.NoOverlap` | user/program/umalloc.c:26-49 | Blocks, live or free, never overlap and lie in memory that sbrk gave. |
| `Umalloc.UserHeap.Free` | user/program/umalloc.c:26-49 | The block joins the address-ordered circular list, merged so that no two free blocks touch, and the free block it ends in contains it; the search ends; every other live block and the memory owned stay the same. |
| `Umalloc.SoundIff` | kernel/sysproc.c:58-86 | For every request a uint can make and every process size: the memory morecore goes on to free is exactly what sbrk added, or sbrk failed, iff the request is below 2 GB and the size survives being an int, or the request as an int cancels the size, or is 0 while the size as an int is -1; and morecore is told of a failure iff the request cancels the size or the size as an int is -1. |
| `Umalloc.TwoGigabytes` | kernel/sysproc.c:71-83 | One 2 GB request is silently granted nothing, is refused, or shrinks the process, by the process size alone. |
| `Umalloc.OddBreak` | kernel/sysproc.c:65-83 | At a size of 4 GB less one byte, which sbrk(1) makes, a request is granted and taken for a failure. |
| `Umalloc.UserHeap.Morecore` | user/program/umalloc.c:51-66 | For any break: broken exactly when the request is not sound and is not merely granted and taken for a failure; 0 exactly when told of a failure, the heap then unchanged; otherwise a free block that contains all the memory added, and the same live blocks. |
| `Umalloc.UserHeap.Malloc` | user/program/umalloc.c:68-99 | For any uint size and any break: a block of its own, large enough, every other live block unchanged, the heap again partitioned; morecore is called once exactly when no free block fits; 0 exactly when it is then told of a failure; broken exactly when that request breaks the heap. |
| `ShTheorems.AcceptsExactly` | user/program/sh.c:337-463 | The parser accepts exactly the token sequences the grammar derives, with the derivation's command. |
| `ShLayers.SimpleAsWritten` | user/program/sh.c:430-462 | A line of words and redirections is a command if and only if every redirection has its file and there are fewer than ten words: the program with the words as written, inside the redirections as written, the first innermost. |
| `ShLayers.BlockAsWritten` | user/program/sh.c:387-428 | A block's redirections go around its command in the order written, the k-th pair of tokens being the k-th layer outside those the command has. |
| `ShTheorems.PrintedParses` | user/program/sh.c:337-463 | Parsing a fully parenthesised printing of any well-formed command gives the command back. |
| `ShTheorems.ReparsePrinted` | user/program/sh.c:337-463 | Every parsed command is well formed, and printing and parsing it again changes nothing. |
| `ShLex.Gettoken` | user/program/sh.c:274-318 | The next token of the line and the position behind it and its white space. |
| `ShLex.Covered` | user/program/sh.c:274-318 | The tokens of a line spell its characters other than white space, each once and in order. |
| `ShLex.TouchingTokens` | user/program/sh.c:274-318 | Two words with a bar between them and no white space are three tokens. |
| `Sh.Parsecmd` | user/program/sh.c:337-353 | The recursive descent over characters ends on every line and answers as the parser on the line's tokens does. |
| `ShText.Nulterminate` | user/program/sh.c:464-510 | A NUL at the end of every word of the command and no other change. |
| `ShText.ParseInPlace` | user/program/sh.c:337-353 | After parsing and termination every argument and file name is the C string of exactly its token. |
| `ShPrint.TextRoundTrip` | user/program/sh.c:271-463 | Writing a command as text, lexing and parsing it gives the same command over the same strings. |
| `Grep.Matchhere` | user/program/grep.c:88-100 | The pattern's items split a prefix of the text, to its end under a final $. |
| `Grep.Matchstar` | user/program/grep.c:102-111 | Some run of the character, then the rest of the pattern. |
| `Grep.Match` | user/program/grep.c:76-86 | 1 exactly when a prefix (under ^) or some substring has the pattern's declarative meaning; the recursion ends. |
| `Pipe.Pipe.WriteStretch` | kernel/proc/pipe.c:76-100 | The bytes put in are the next of the source; the counters tell full from empty across 32-bit wrap-around; readers are left asleep on data exactly when readers sleep and a killed writer, or one whose read end is closed, has more than a pipe's worth to write. |
| `Pipe.Pipe.ReadStretch` | kernel/proc/pipe.c:102-127 | The bytes delivered are the next ones put in, and all that are taken out exactly unless the destination refuses a byte that is asked for and there; it sleeps or fails exactly on an empty pipe with the write end open. |
| `Pipe.Pipe.Step` | kernel/proc/pipe.c:58-127 | Any stretch of any process, and any kill that wakes one, is one step of a bounded queue: it puts in exactly the writer's next bytes that can be read and fit, and delivers exactly the first ones asked for; readers are left asleep on data exactly when the event is such a write and readers sleep; the page is freed exactly when both ends are closed, and then nobody sleeps. |
| `Pipe.Pipe.Run` | kernel/proc/pipe.c:58-127 | Any interleaving of these is a run of the bounded queue: the bytes delivered, those put in and those left are the queue's; no reader sleeps on data unless a write of that kind occurs; nobody sleeps on a freed pipe. |
| `Pipe.FifoIff` | kernel/proc/pipe.c:76-127 | Over any run what readers got, followed by what is still in the pipe, is what was in it followed by what writers put in, if and only if no read lost a byte. |
| `Pipe.RoomyReaders` | kernel/proc/pipe.c:116-123 | Readers whose destinations take all they ask for never lose a byte. |
| `Pipe.StrandedReader` | kernel/proc/pipe.c:85-89 | A reader left asleep on a full pipe by a killed writer. |
| `Pipe.LostByte` | kernel/proc/pipe.c:119-122 | A reader whose destination takes one byte of two loses the second. |
| `NetModel.TwoFoldsSuffice` | kernel/network/net.c:152-158 | Two folds give the ones' complement sum of any 32-bit accumulator (sections 1 and 4.1 of RFC 1071). |
| `NetModel.HeaderChecksumsToZero` | kernel/network/net.c:180-200 | Every IP header that is sent checksums to 0. |
| `NetModel.FrameRoundTrip` | kernel/network/net.c:284-373 | A frame to this host, with any padding behind it, delivers the same payload and ports. |
| `Wire.FrameOnWire` | kernel/network/net.c:162-216 | Every frame sent has, byte by byte and most significant byte first, the layout of RFC 894, RFC 791 and RFC 768, with the header checksum that RFC 791 asks for. |
| `Wire.DeliveredIff` | kernel/network/net.c:284-373 | A frame from any host delivers something if and only if its bytes are an unfragmented UDP datagram for this host with a right header checksum and lengths that fit; what is delivered is the payload, the sender's address and the ports those bytes give. |
| `Wire.ByteOrderIndependent` | kernel/network/net.c:128-159 | Summing words in the machine's byte order gives the network's sum with its bytes swapped (section 2 (B) of RFC 1071). |
| `Wire.ArpOnWire` | kernel/network/net.c:218-245 | An ARP packet sent has the layout of RFC 826. |
| `NetModel.ArpAnswered` | kernel/network/net.c:218-281 | Whoever asks for this host's address, with any Ethernet addresses and padding, is sent a frame that reads as a reply to them with this host's addresses, and that reply is never answered in turn. |
| `Net.InCksum` | kernel/network/net.c:128-159 | The Internet checksum of the bytes, odd lengths included, if and only if their sum fits 32 bits, as it does up to 131072 bytes. |
| `Net.CarryDropped` | kernel/network/net.c:128-159 | A block of 131076 bytes 0xFF is given a wrong checksum. |
| `Net.TxUdp` | kernel/network/net.c:162-216 | The buffer then holds the Ethernet, IP and UDP headers and the payload; the panic exactly when 42 bytes of headroom are lacking. |
| `Net.Rx` | kernel/network/net.c:218-373 | Delivers the datagram the frame's bytes encode, or nothing, and sends the answer to an ARP request for this host, or nothing, as functions of the bytes. |
| `Net.Loopback` | kernel/network/net.c:162-373 | Every payload up to 1920 bytes sent to this host, with any padding the buffer holds, arrives unchanged with its ports. |
| `Net.Mbuf.Put` | kernel/network/net.c:43-51 | The 32-bit length wraps; the bytes put lie inside the buffer and count as its data exactly when headroom and lengths add up to at most its size; the panic tests less. |
| `Net.PutOverruns` | kernel/network/net.c:43-51 | A put that passes the panic test and ends outside the buffer. |
| `Net.PutWraps` | kernel/network/net.c:43-51 | A put of nearly 4 GB that passes the panic test and leaves the length at 0. |

## Findings

Properties the code does not have, and where the code differs from its comments.

- Recovery calls bunpin without a bpin (kernel/filesystem/log.c:78, 119). The replayed buffers' counts end one below 0, so a process that looks one up, even to read it, brings the count to 0; bget can then give the buffer to another block whose reference count comes out one too low, and an update of that block can be evicted unwritten: `ReplayedBlockIff`, `BootKeepsUpdatesIff`.
- begin_op reserves ten blocks per operation, but ten are too many for log_write's test at 29 entries: `FullBudgetOverflows`; nine are safe: `LogNeverOverflows`. A filewrite chunk can log ten: `TenBlockChunk`, `ChunkWithinBudget`.
- copyout does not look at PTE_W and so reaches a read-only page that other processes share: `CopyoutIsolatedIff`, `ReadOnlyPageLeaks`.
- A pipe writer that is killed, or whose read end is closed, and that fills the pipe returns without waking the readers: `WriteStretch`, `StrandedReader`.
- piperead takes a byte out before copying it, so the byte its destination refuses is lost: `ReadStretch`, `FifoIff`, `LostByte`.
- sbrk takes an int. A malloc of 2 GB or more, or beyond 2 GB of process size, corrupts the heap except where the numbers cancel; and a size that as an int is -1 makes a granted request look refused: `SoundIff`, `TwoGigabytes`, `OddBreak`.
- mbufput tests the length against the buffer's size without the headroom, and after it has wrapped: `Put`, `PutOverruns`, `PutWraps`.
- writei reports n when a copy from the source fails midway, and leaves the bytes copied before that in a buffer it does not log: `Writei`.
- in_cksum drops carries out of its 32-bit sum, which its uses on headers of 20 bytes never produce: `InCksum`, `CarryDropped`.
- runq_pick takes the lowest bucket while waiting raises a process's bucket, so aging, meant at kernel/proc/sched_o1.c:112-113 to prevent starvation, moves a waiting process away from its turn: `WaitingRaises`, `PickIsFront`, and `Contend` for exactly when one process starves another.

## Left out

- `LogTheorems.CrashAtomicity`: not claimed for runs in which a process looks up a block its own boot replayed, because the code loses updates there (see Findings). The log's own bread and brelse are one step; in the runs claimed they hold blocks whose counts are right, which bget cannot take.
- `Log.Log.LogWrite`: log_write's panics are preconditions; when the first is reached is LogNeverOverflows and FullBudgetOverflows.
- `FileIo.Filewrite`: other writers of the file between its chunks are not modelled.
- `Bio.Bcache.Bget`: one atomic step, although other buckets' locks are taken and released on the way; device 0, which marks unused buffers, is excluded. Sleep locks and holders of buffers are in the log's machine.
- `Bio.Bcache.Bread`: bget, the sleep lock and the disk read are one step here and separate ones in the log's machine.
- `CowTheorems.ForkRefinesEagerCopy`: copyout into a shared frame, where the property fails, is CopyoutIsolatedIff.
- `Umalloc.UserHeap.Malloc`: the model stops where the heap is broken instead of following the corrupted list.
- `SchedO1.Runq.Tick`: a setPriority on another CPU during the tick; priorities and times are unbounded integers, not 32-bit ints.
- `Vm.Vm.Uvmalloc`: mapping a mapped page (a panic) is a precondition here and in MapPages.
- `Vm.Vm.Uvmunmap`: releasing a frame and clearing its entry are one step; entries are a frame number and a set of flags, not 64-bit words.
- `Fs.Fs.Bmap`: bitmap bytes are rows of booleans, and pointer blocks hold numbers, not bytes.
- `Sh.Parsecmd`: command nodes are values, so sharing between nodes under construction is not modelled.
- `Kalloc.Kmem.Kalloc`: the page-table code and the copy-on-write machine use a set of free frames, which is the domain of `place` here; that they are the same allocator is not a lemma.
- copyin and copyinstr: one more use of the flat map.
- Directories, path names and inode allocation: easy members over the byte-sequence model.
- Deadlock freedom: bget takes another bucket's lock while it holds its own.
- Semaphores, message queues, shared memory, mmap, clone and join, signals.
- Devices, traps, assembly, boot code and TLB flushes.
