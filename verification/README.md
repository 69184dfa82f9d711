# xv6, modelled and proved in Dafny

A model of the parts of the xv6 kernel and its user programs where the state is hardest to
keep straight, with proofs of what they promise: the crash-safe storage stack, processes with
sleep and wakeup, the user-level allocator, page tables, pipes, the shell's parser and grep's matcher.
`dafny verify dfyconfig.toml` checks all of it.

Code that updates things in place is a class whose methods have loops and are proved
against functions of the old state. Code that several CPUs or processes execute at once is a state
machine whose steps are the sections the source makes atomic (under a spin lock, one disk write,
one `swtch`); theorems about it quantify over every run, with any number of processes, CPUs,
calls and crashes.

| files | models |
|---|---|
| Blocks, Seqs | 512-byte blocks, little-endian words and bits inside them; sequences without repetition |
| LogProtocol, LogProof, LogPanic, LogOverflow | `log.c` as a protocol between calls, cache, committer, disk and crashes |
| LogDevice | `log.c` byte by byte, with the disk after every single block write |
| FsLayout, FsProof, FsInodes, FsOps, FsCount | `fs.c` and `filewrite`: bitmap, inodes, indirect blocks, files as byte strings |
| FsCrash | `filewrite` on top of the log, with a crash after any block write |
| Bio | `bio.c`: the doubly linked LRU buffer cache |
| Umalloc | `umalloc.c`: the circular, address-ordered, coalescing free list |
| ProcMachine, ProcPlaces, ProcWho, ProcBase, ProcFamily, ProcEvents, ProcWakeups, ProcProof, ProcRace, ProcStrand, ProcKill, ProcSleep | `proc.c` and `spinlock.c` as a machine over any number of slots and CPUs |
| ProcTable | the table scans of `proc.c` as loops |
| Pipe | `pipe.c`: the ring buffer, and any number of readers and writers over it |
| VmSpace, VmFree, VmMap, VmGrow, VmDrop, VmCopy, VmOps, VmTheorems | `vm.c` and `kalloc.c`: free list, two-level tables, flat maps |
| ShellSyntax, Shell, ShellGrammar, ShellPrint | the parser of `sh.c`, the grammar it accepts, and a printer it inverts |
| Grep | the matcher of `grep.c` against a definition of the language of a pattern |

## What turns out to be false, and when it holds

- Recovery is atomic in every run exactly when `log.size` exceeds LOGSIZE + 2, or exceeds LOGSIZE and
  every call stays within MAXOPBLOCKS, or the log area is its header alone (`LogOverflow.AtomicIff`).
  `log_write` tests `lh.n` before it takes `log.lock`, so calls can pass the test together on one free
  slot; the list then outgrows the log area, and `write_log` goes on into the blocks behind it
  (`LogOverflow.Overflow`). For 2 up to LOGSIZE blocks this happens to calls that keep to MAXOPBLOCKS. `mkfs`
  sets `nlog = LOGSIZE`, and the blocks behind are the inodes.
- The log cannot panic exactly when `log.size` exceeds LOGSIZE and every call stays within
  MAXOPBLOCKS (`LogPanic.PanicIff`). The shipped image is on the wrong side of the first condition, and
  `filewrite`, which sizes its chunks by LOGSIZE, on the wrong side of the second (`FsOps.ChunkOverruns`).
  A `filewrite` that has the log to itself does not make it panic (`FsCrash.System.LogCalls`).
- No sleeper is stranded exactly in the runs where nobody who is the last awake thread to owe it a
  wakeup falls asleep or exits (`ProcProof.NoLostWakeupIff`, with a concrete run in
  `ProcStrand.DebtorExits`). `pipewrite` may do that when its process is killed.
- Nobody sleeps on a pipe for nothing exactly when no killed writer returns from a full pipe while a
  reader sleeps (`PipeRuns.NoneStuckIff`, with a concrete run in `PipeRuns.KillLosesWakeup`).
- `deallocuvm` unmaps all it is asked to exactly when its jump over an absent table passes no mapped
  page (`VmOps.Memory.Deallocuvm`, with a concrete address space in `VmTheorems.MissedExample`). It
  does when the user mappings are a prefix of the address space.
- `allocuvm` ignores the result of `mappages`, so it can lose a frame, and can report success with its
  last page unmapped: exactly when the free frames run out between a page and its table. The next
  `copyuvm` of such a space panics, if memory lasts until that page (`VmOps.Memory.Copyuvm`)
  (`VmTheorems.LosesIff`, and from boot on in `VmTheorems.LosesExample`).
- `setupkvm` that fails keeps every frame that was free, and does so exactly when fewer than 65 were
  (`VmOps.Memory.Setupkvm`); `copyuvm` loses the page in hand exactly when one frame is left where a table
  is needed (`VmOps.Memory.Copyuvm`).
- A killed process is never left asleep on a pipe exactly when no kill falls between its test of `killed`
  and its sleep (`PipeRuns.NoneKilledAsleepIff`, with a concrete run in `PipeRuns.KilledAsleep`).
- `malloc` hands out enough, and asks `sbrk` for what it means to, exactly for requests of at most
  2^31 - 16 bytes (`Umalloc.SizesPlain`).
- A process carries the mark of `kill` only if `kill` found it under its own pid, or had marked its slot before
  a process was formed there (`ProcKill.MarkComes`). The second case happens: `kill` compares pids only, so `kill(0)`
  marks an unused slot, and the process made there next is born marked (`ProcKill.BornMarked`).
- The shell's `>>` yields the same tree as `>` (`sh.c` lines 389-395); the model follows the code.

## Model

| member | source | states |
|---|---|---|
| `LogProof.InvNext` | xv6-public/log.c:123-230 | every step of every call, of eviction, of the committer, of a crash and of recovery keeps the log invariant, when the log area is its header alone, or holds LOGSIZE blocks and calls keep to MAXOPBLOCKS, or holds one block more for every call that begin_op admits |
| `LogProof.AtomicRecovery` | xv6-public/log.c:123-230 | under that condition, at every state of every run, panics included, recovering the disk gives exactly the writes, in order, of a set of calls that had all reached end_op: each call's writes are all present or all absent |
| `LogProof.CommitPoint` | xv6-public/log.c:189-199 | the only step that changes what recovery would leave is the committing header write, which takes in every call of the group at once and nothing older is lost |
| `LogProof.RecoveryDone` | xv6-public/log.c:68-121 | after any number of crashes inside recovery, the first completed recovery leaves the home blocks with the durable calls' writes only, and an empty header |
| `LogProof.ReadersSeeLatest` | xv6-public/log.c:210-230 | in every run bread shows the writes of all calls that are durable, ended or still running, across eviction and installation |
| `LogProof.LogSpace` | xv6-public/log.c:124-171 | in every reachable state, when calls keep to MAXOPBLOCKS and log.size exceeds LOGSIZE, lh.n plus the unspent reservations is at most LOGSIZE, logged numbers are distinct, committing implies outstanding is 0, and no log panic is reached |
| `LogProof.ReplayInstalled` | xv6-public/log.c:69-81 | when every logged block has reached its home, replaying the log changes nothing: installation is idempotent |
| `LogProof.InstallKeeps` | xv6-public/log.c:69-81 | copying one log block home does not change what recovery would leave |
| `LogPanic.PanicIff` | xv6-public/log.c:215-218 | some run reaches a log panic if and only if log.size is at most LOGSIZE or a call may log more than MAXOPBLOCKS blocks |
| `LogPanic.Overrun` | xv6-public/log.c:124-142 | the run that panics, built from three calls that each got through begin_op |
| `LogOverflow.AtomicIff` | xv6-public/log.c:174-230 | recovery leaves the effect of a set of ended calls, at every state of every run, if and only if log.size is 1, or exceeds LOGSIZE + 2, or exceeds LOGSIZE and calls keep to MAXOPBLOCKS |
| `LogOverflow.Overflow` | xv6-public/log.c:174-230 | for every other log.size, a run of three calls, two or three of which pass the test of log_write together, whose commit overwrites the block behind the log area; up to LOGSIZE blocks the calls keep to MAXOPBLOCKS |
| `LogOverflow.NotAtomic` | xv6-public/log.c:179-183 | no set of calls explains what that run leaves on the disk |
| `LogDevice.HeadRoundTrip` | xv6-public/log.c:84-111 | what write_head stores in the header block is what read_head reads, whatever the block held |
| `LogDevice.Log.InitLog` | xv6-public/log.c:52-66 | taking over a disk in any state a crash left it in gives home blocks equal to a full recovery, and an empty log |
| `LogDevice.Log.WriteLog` | xv6-public/log.c:174-187 | the i-th logged block is copied to block log.start + 1 + i and no other block changes; after each of its writes header and home blocks are the old ones |
| `LogDevice.Log.WriteHead` | xv6-public/log.c:100-112 | one block write, to block log.start: its first word is n, the next n words are the block numbers, the words behind them and all other blocks are as before |
| `LogDevice.Log.InstallTrans` | xv6-public/log.c:68-81 | block log.start + 1 + i is copied to the i-th logged number for each i, and no other block changes; a crash after any of the writes recovers to the same home blocks |
| `LogDevice.Log.InstallAndClear` | xv6-public/log.c:195-197 | installing and clearing the header recovers to the same home blocks at every crash point |
| `LogDevice.Log.LogGroup` | xv6-public/log.c:193-194 | every disk before the header write recovers to the old home blocks, and the disk after it to the new ones |
| `LogDevice.Log.Commit` | xv6-public/log.c:189-199 | crash points before the header write recover to all-old, from it on to all-new; afterwards the log is empty and the home blocks hold the group |
| `LogDevice.Log.RecoverFromLog` | xv6-public/log.c:114-121 | home blocks become the full replay of the log found on disk; every crash point inside recovers to the same |
| `LogDevice.Log.ReadHead` | xv6-public/log.c:84-96 | n and the block numbers become the words of block log.start, and the disk is unchanged |
| `LogDevice.Log.BeginOp` | xv6-public/log.c:124-142 | a call proceeds exactly when no commit is under way and one more reservation fits |
| `LogDevice.Log.EndOp` | xv6-public/log.c:144-171 | the last call out commits the group, all-old at every crash point before the header write and all-new from it on; any other leaves the disk alone; waiting calls are woken unless it panics |
| `LogDevice.Log.LogWrite` | xv6-public/log.c:210-230 | it panics exactly when the log is full (also for an absorbed block) or no call is running; otherwise the block is in the list, once |
| `FsProof.BallocStep` | xv6-public/fs.c:52-75 | a block free in the bitmap is a data block that no inode names; taking it keeps the file system invariant and every other data block |
| `FsLayout.MarkAt` | xv6-public/fs.c:52-93 | block b's mark is bit b mod 4096 of bitmap block b / 4096; balloc's effect sets it and zeroes b, bfree's clears it, and nothing else changes |
| `Blocks.ByteIsItsBits` | xv6-public/fs.c:63-66 | bit 8 j + k of a bitmap block counts 2^k in byte j |
| `Blocks.WordBytes` | xv6-public/fs.h:26-34 | a 32-bit word is its four bytes, lowest first |
| `FsProof.SetAddrStep` | xv6-public/fs.c:356-367 | storing an allocated block in an empty address slot keeps every block owned by one slot only |
| `FsProof.SetEntryStep` | xv6-public/fs.c:370-380 | the same for an entry of the indirect block |
| `FsProof.WriteDataStep` | xv6-public/fs.c:476-481 | storing into a data block changes no address slot of any inode and keeps the file system invariant |
| `FsProof.BfreeStep` | xv6-public/fs.c:78-93 | an allocated block that no inode names is marked, and freeing it keeps the file system invariant and every data block |
| `FsProof.DetachStep` | xv6-public/fs.c:391-419 | emptying an inode leaves exactly its blocks allocated and unnamed |
| `FsProof.ContentAt` | xv6-public/fs.c:356-384 | byte j of a file's block bn is byte j of the disk block named by addrs[bn], or from the twelfth on by word bn - 12 of the block named by addrs[12] |
| `FsInodes.PutInodeGet` | xv6-public/fs.c:205-212 | the size and addresses stored in an inode's 64 bytes read back, and no other inode of the block changes (where they lie is FsInodes.PutInodePlace) |
| `FsInodes.PutInodePlace` | xv6-public/fs.c:205-212 | only bytes 8 to 63 of the inode's 64 change, so type, major, minor and nlink stay; the size is word 2 of its sixteen and the addresses are words 3 to 15 |
| `FsInodes.UpdatedStep` | xv6-public/fs.c:205-213 | a store to an inode block changes no address slot, no bitmap bit and keeps the file system invariant |
| `FsOps.Fs.Mount` | xv6-public/fs.c:281-291 | the in-memory inodes of a consistent image are those read from its inode blocks: size and addresses are words 2 to 15 of the sixteen at 64 (i mod 8) in inode block i / 8 |
| `FsOps.Fs.Balloc` | xv6-public/fs.c:52-75 | the first free block is marked and zeroed, nothing else changes; it panics exactly when every block is in use |
| `FsOps.Fs.Bfree` | xv6-public/fs.c:78-93 | the block's bit is cleared and no other; it panics exactly when the block is free |
| `FsOps.Fs.Bmap` | xv6-public/fs.c:356-384 | the disk block of a file block, which afterwards is addrs[bn] or, from the twelfth on, word bn - 12 of the block addrs[12], allocated (with the indirect block) if absent; every file's bytes and other inodes are kept, and so is the file system invariant |
| `FsOps.Fs.Readi` | xv6-public/fs.c:434-458 | returns exactly the bytes of the file's flat contents from off on, cut at its end, or -1 exactly when off is past the end or off + n wraps; changes nothing |
| `FsOps.Fs.Iupdate` | xv6-public/fs.c:199-215 | only bytes 64 (i mod 8) + 8 to 64 (i mod 8) + 63 of inode block i / 8 change, and hold the in-memory size and addresses; the block is logged; no other inode, no file and no bitmap bit changes |
| `FsOps.Fs.Writei` | xv6-public/fs.c:462-492 | the file's contents become the old ones spliced with src at off, other files are unchanged, every block stays owned once with no holes, the inode read back from its block equals the in-memory one if it did before although iupdate happens only on growth, only blocks passed to log_write change, and at most 2 blocks per file block and 3 more are logged |
| `FsOps.Fs.Itrunc` | xv6-public/fs.c:391-419 | frees exactly the inode's data and indirect blocks, each once, never reaching "freeing free block"; other files keep their bytes |
| `FsOps.Fs.FileChunk` | xv6-public/file.c:133-148 | one transaction of filewrite logs at most LOGSIZE distinct blocks, for every alignment and bitmap placement, and at each log_write call, repeated ones included, fewer than LOGSIZE are in the log |
| `FsOps.Fs.Filewrite` | xv6-public/file.c:116-153 | the chunks together are one splice of the bytes written at the starting offset; no chunk logs more than LOGSIZE blocks; n or -1 is returned as the code does |
| `FsCrash.System.LogCalls` | xv6-public/log.c:210-230 | the log_write calls of one transaction of filewrite, in order, on an empty log larger than LOGSIZE: none panics, and the list is exactly the blocks that changed |
| `FsCrash.System.Chunk` | xv6-public/file.c:133-148 | a crash after any block write of the transaction leaves, once recovered, the home blocks before it or after it; afterwards the disk shows the file spliced with the chunk |
| `FsCrash.System.Filewrite` | xv6-public/file.c:116-153 | a crash after any block write inside filewrite leaves, once recovered, a consistent file system, with inodes read from the disk, in which the file's bytes are the old ones spliced with a whole number of chunks and no other file changed |
| `FsCrash.OverlayBlocks` | xv6-public/log.c:189-199 | the commit of a transaction turns the old image into the new one |
| `FsOps.ChunkFits` | xv6-public/file.c:126-136 | the chunk size keeps the number of logged blocks within LOGSIZE for every alignment and every LOGSIZE of at least 6 |
| `FsOps.ChunkOverruns` | xv6-public/file.c:132 | with LOGSIZE 30 a full chunk touches more than MAXOPBLOCKS data blocks, so filewrite exceeds what begin_op sets aside |
| `FsOps.SpliceTwice` | xv6-public/file.c:133-148 | two splices one after the other are one splice of both parts |
| `FsOps.WrittenContent` | xv6-public/fs.c:471-488 | writing block by block without holes gives the spliced contents and leaves no holes |
| `FsCount.UsedCount` | xv6-public/fs.c:52-93 | in every consistent file system the number of set bitmap bits is the metadata blocks plus the slots in use |
| `Bio.Bcache.constructor` | xv6-public/bio.c:39-57 | one doubly linked ring through the head and all buffers, none of a real device |
| `Bio.Bcache.FindCached` | xv6-public/bio.c:70-81 | the search from the head finds the block's buffer, or there is none |
| `Bio.Bcache.FindOldest` | xv6-public/bio.c:83-94 | the search from the tail finds the clean free buffer released longest ago, or all are busy or dirty |
| `Bio.Bcache.Bget` | xv6-public/bio.c:62-96 | the block's own buffer, or the least recently released eligible one; never a busy or dirty one; no two buffers for one real block |
| `Bio.Bcache.Bread` | xv6-public/bio.c:99-109 | the returned buffer holds the latest contents of the block, as last changed by any holder |
| `Bio.Bcache.Iderw` | xv6-public/memide.c:37-59 | a dirty buffer is written, an invalid one read; the buffer then agrees with the disk and with the latest contents |
| `Bio.Bcache.Modify` | xv6-public/bio.c:6-21 | a holder's change is the block's latest contents from then on |
| `Bio.Bcache.MarkDirty` | xv6-public/log.c:228 | a dirty buffer keeps its block's latest contents in the cache |
| `Bio.Bcache.Bwrite` | xv6-public/bio.c:111-119 | the disk then has the buffer's contents and no other block changes |
| `Bio.Bcache.Brelse` | xv6-public/bio.c:121-142 | the buffer becomes the most recently released, the ring stays one double cycle through all buffers, contents are kept |
| `Bio.Moved` | xv6-public/bio.c:131-136 | the six link writes move one buffer to the front of the ring, in both directions, wherever it was |
| `Bio.RecycleCoherent` | xv6-public/bio.c:86-93 | giving a clean free buffer to another block loses nothing: the disk has its old block's latest contents |
| `Umalloc.Heap.constructor` | xv6-public/umalloc.c:21-22 | an empty heap, before the first malloc |
| `Umalloc.Heap.Walk` | xv6-public/umalloc.c:30-32 | free's walk round the ring ends, at the one place where the block belongs in address order |
| `Umalloc.Heap.Free` | xv6-public/umalloc.c:24-44 | the list stays one address-ordered ring with no two free blocks touching, free and allocated blocks exactly tile the arena, the freed units lie in one free block, and freep is the free block before them |
| `Umalloc.Heap.Morecore` | xv6-public/umalloc.c:46-61 | at least 4096 units, or just the request if larger, are asked of sbrk; they join the arena and the free list, or nothing changes and 0 is returned |
| `Umalloc.Heap.Carve` | xv6-public/umalloc.c:70-82 | a block of the exact size is unlinked, a larger one gives up its tail |
| `Umalloc.Heap.Malloc` | xv6-public/umalloc.c:63-90 | one new block of Units(nbytes), disjoint from all others, the ring and the tiling kept; morecore is called once exactly when no free block fits, else not at all; 0 exactly when sbrk then refuses; without morecore the block is the tail of the next fit, the first large enough block after freep round the ring, and the block before it becomes freep; the walk ends by its distance round the ring |
| `Umalloc.FreeKeeps` | xv6-public/umalloc.c:33-43 | the two header updates of free keep the ring and the tiling, with both, one or no neighbour joined |
| `Umalloc.TakeWhole` | xv6-public/umalloc.c:75-76 | unlinking a block keeps the ring and the tiling |
| `Umalloc.TakeTail` | xv6-public/umalloc.c:77-81 | cutting the tail off a block keeps the ring and the tiling |
| `Umalloc.SizesTight` | xv6-public/umalloc.c:69 | the block is the smallest whole number of units that holds the header and nbytes |
| `Umalloc.SizesPlain` | xv6-public/umalloc.c:67-69 | the block holds nbytes and sbrk is asked for its true size if and only if nbytes is at most 2^31 - 16 |
| `ProcProof.InvNext` | xv6-public/proc.c:34-429 | every step of every CPU keeps the process invariant |
| `ProcProof.RunningIffCurrent` | xv6-public/proc.c:265-347 | in every run, whenever ptable.lock is free, a process is RUNNING if and only if it is the current process of a CPU, and of only one |
| `ProcProof.StacksExist` | xv6-public/proc.c:209-241 | a CPU always executes on a kernel stack that is allocated |
| `ProcProof.ReapedOffCpu` | xv6-public/proc.c:226-243 | wait frees a zombie's stack only when every CPU has switched off it |
| `ProcProof.NoPanics` | xv6-public/spinlock.c:24-116 | in every reachable state a thread is inside ptable.lock if and only if its CPU holds it, with interrupts off and the right pushcli depth, so the panics of acquire, release, popcli and sched, and the one after exit, cannot happen |
| `ProcProof.NoLostWakeupIff` | xv6-public/proc.c:351-406 | over all runs: whenever a process sleeps on a channel whose condition has become true, an awake thread is between that change and its wakeup1 scan, if and only if nobody who is the last such thread of a sleeper falls asleep or exits |
| `ProcProof.NoLostWakeup` | xv6-public/proc.c:351-406 | so it is in every run where nobody falls asleep or exits while it owes a wakeup |
| `ProcStrand.DebtorExits` | xv6-public/proc.c:178-213 | a concrete run in which a process makes a condition true, exits without wakeup, and strands its parent |
| `ProcRace.RaceHappens` | xv6-public/proc.c:366-374 | a concrete run in which the condition becomes true between sleep's release of its lock and the process being marked asleep: the case NoLostWakeup is about |
| `ProcProof.FamilyTree` | xv6-public/proc.c:128-255 | in every reachable state every live process and zombie but init has a live parent of smaller pid, parent links lead to init, and no process asleep in wait has a zombie child |
| `ProcProof.ReachesInit` | xv6-public/proc.c:196-206 | following parent links from any live process or zombie ends at init |
| `ProcKill.KillMarks` | xv6-public/proc.c:416-424 | kill's scan in the machine: the first slot with the pid is marked and no longer asleep, and no other field or slot changes |
| `ProcKill.StepChange` | xv6-public/proc.c:34-429 | every step of every CPU keeps each slot's mark and, once formed, its process, unless it is kill finding the slot or wait reaping it |
| `ProcKill.MarkStays` | xv6-public/proc.c:226-243 | in every run, a slot once marked by kill stays marked until wait has reaped it |
| `ProcKill.MarkComes` | xv6-public/proc.c:411-429 | in every run, a slot is marked only if kill found it: with the pid it has now, or before a process was formed there |
| `ProcKill.BornMarked` | xv6-public/proc.c:44-50 | a concrete run in which kill(0) marks an unused slot and a process whose pid was not given out yet is then born marked |
| `ProcKill.PidsDistinct` | xv6-public/proc.c:44-50 | in every reachable state no two slots have the same pid but 0, so kill finds at most one process |
| `ProcKill.ReapedGone` | xv6-public/proc.c:226-243 | in every run, once wait has reaped a process its pid is in no slot again |
| `ProcSleep.Apart` | xv6-public/proc.c:265-347 | a step of one CPU leaves every thread that runs or waits elsewhere as it is, but for the scheduler resuming it with its saved interrupt setting |
| `ProcSleep.SleepReturns` | xv6-public/proc.c:351-386 | in every run, sleep returns with the lock it was called with held again by the CPU it returns on, with the interrupt setting it was called with, and with no channel |
| `ProcSleep.NoChannel` | xv6-public/proc.c:371-378 | in every reachable state a process that is not inside sleep or wait has no channel |
| `ProcSleep.WaitReturns` | xv6-public/proc.c:222-254 | in every run, wait returns only from a scan: it has reaped a zombie child, or found no children or itself killed |
| `ProcBase.BaseSwitchOut` | xv6-public/proc.c:300-316 | ptable.lock passes from the process to its CPU's scheduler across swtch and stays held by the same CPU |
| `ProcBase.BaseSwitchIn` | xv6-public/proc.c:283-291 | the same from the scheduler to the process picked, which was switched out and not exited |
| `ProcBase.ReapedIsOff` | xv6-public/proc.c:230-236 | a zombie child found under ptable.lock is on no CPU |
| `ProcEvents.ExitGiveFamily` | xv6-public/proc.c:199-206 | passing children to init, waking it for a zombie, keeps the tree and the waiters |
| `ProcEvents.ExitSetFamily` | xv6-public/proc.c:209 | becoming a zombie after waking the parent and giving children away keeps the tree and the waiters |
| `ProcEvents.WaitScanFamily` | xv6-public/proc.c:222-254 | going to sleep in wait after a scan without zombies keeps the waiters |
| `ProcEvents.ForkRunFamily` | xv6-public/proc.c:146-164 | an embryo that becomes runnable has a live parent of smaller pid |
| `ProcWakeups.ChangeBeds` | xv6-public/proc.c:366-369 | changing a condition under its lock finds nobody between the test and sleep's acquire of ptable.lock |
| `ProcWakeups.WakeScanLost` | xv6-public/proc.c:389-406 | a wakeup1 scan pays for every sleeper on its channel and touches no other channel's debt |
| `ProcWakeups.WakeScanBeds` | xv6-public/proc.c:366-374 | a wakeup1 scan misses nobody who is just falling asleep |
| `ProcWakeups.LeaveLost` | xv6-public/proc.c:372-374 | falling asleep or exiting strands a sleeper if and only if it takes away the last awake debtor |
| `ProcTable.Table.Wakeup1` | xv6-public/proc.c:389-397 | exactly the sleepers on the channel become runnable, and no other field of any slot changes |
| `ProcTable.Table.GiveChildren` | xv6-public/proc.c:199-206 | exactly the children of me get init as their parent, init is made runnable if it sleeps in wait and one of them is a zombie, and no other field changes; this is the machine's one step |
| `ProcTable.Table.Exit` | xv6-public/proc.c:196-209 | me becomes a zombie, its children get init as their parent, its parent and, for a zombie child, init are woken from wait, and no other field of any slot changes; these are the machine's three steps |
| `ProcTable.Table.WaitPass` | xv6-public/proc.c:225-250 | the first zombie child is reaped and its pid returned, else children or none is told apart, as the machine chooses |
| `ProcTable.Table.Kill` | xv6-public/proc.c:411-429 | the first slot with the pid is marked, becomes runnable if it was asleep and keeps its state otherwise; no other field and no other slot changes; false exactly when there is none |
| `ProcTable.Table.AllocSlot` | xv6-public/proc.c:40-50 | the first unused slot becomes an embryo with a new pid, or there is none |
| `Pipe.Pipe.constructor` | xv6-public/pipe.c:32-35 | an empty pipe with both ends open |
| `Pipe.Pipe.Write` | xv6-public/pipe.c:77-97 | the ring becomes Fill of the old one: as many bytes as fit are stored in order; it returns, fails or sleeps exactly as the room, the read end and killed say, and wakes readers except when it fails |
| `Pipe.Pipe.Read` | xv6-public/pipe.c:99-120 | the ring and the bytes got are Drain of the old ring: the next bytes stored, in order, up to n; it sleeps exactly on an empty pipe that can still be written |
| `Pipe.Pipe.Put` | xv6-public/pipe.c:92 | one byte enters the ring at nwrite mod 512 and overwrites no unread byte, also when the counter wraps |
| `Pipe.Pipe.Get` | xv6-public/pipe.c:115 | the byte read is the oldest unread one |
| `Pipe.Pipe.Close` | xv6-public/pipe.c:58-74 | one end is closed and the other end's sleepers are woken, the bytes stay, and the page is freed exactly when both ends are closed |
| `Pipe.Wrapped` | xv6-public/pipe.c:84 | the 32-bit counters tell empty and full apart although they wrap, because 512 divides 2^32 |
| `Pipe.FillHolds` | xv6-public/pipe.c:83-93 | filling the ring byte by byte stores what there is room for, in order, and overwrites no unread byte, wherever the counters are |
| `Pipe.DrainHolds` | xv6-public/pipe.c:112-116 | draining it byte by byte takes the oldest bytes, in order |
| `PipeRuns.BytesInOrder` | xv6-public/pipe.c:76-120 | in every run with any readers and writers over one ring with wrapping counters, the bytes that came out are a prefix of those that went in, at most 512 are in flight, and the ring holds exactly those |
| `PipeRuns.NoneStuckIff` | xv6-public/pipe.c:83-94 | no reader sleeps on bytes and no writer on room, throughout a run, if and only if no killed writer returns from a full pipe while a reader sleeps |
| `PipeRuns.UnkilledNeverStuck` | xv6-public/pipe.c:76-120 | in runs without kill nobody sleeps for nothing |
| `PipeRuns.KillWakes` | xv6-public/proc.c:416-424 | a killed process is marked, awake, and goes on where it slept; nothing else changes |
| `PipeRuns.NoneKilledAsleepIff` | xv6-public/pipe.c:85-90 | no killed process is asleep, throughout a run, if and only if no kill falls between a process's test of killed and its sleep |
| `PipeRuns.KilledAsleep` | xv6-public/pipe.c:105-110 | a concrete run that leaves a killed reader asleep |
| `PipeRuns.KillLosesWakeup` | xv6-public/pipe.c:85-88 | a concrete run with a kill that leaves a reader asleep on a full pipe |
| `VmOps.Memory.Freerange` | xv6-public/kalloc.c:45-52 | exactly the whole pages of the range join the free list |
| `VmOps.Memory.Kalloc` | xv6-public/kalloc.c:82-95 | the head of the free list, or 0 exactly when memory is exhausted |
| `VmOps.Memory.Kfree` | xv6-public/kalloc.c:59-77 | the page heads the free list; its first word links to the old head and every other word is 0x01010101 |
| `VmOps.Memory.Walkpgdir` | xv6-public/vm.c:45-65 | the page table of a page, or none exactly when it is absent and not to be or cannot be made; the directory entry is the table's address with the flags present, writable and user; no flat map changes, also when a table is added |
| `VmOps.Memory.MapPage` | xv6-public/vm.c:79-83 | one page of one address space maps to one frame, nothing else changes, and it fails exactly when a table is needed and memory is exhausted |
| `VmOps.Memory.Mappages` | xv6-public/vm.c:70-90 | the flat map changes on exactly the requested pages, up to the first whose table cannot be made; it succeeds if and only if the free frames suffice for the tables |
| `VmOps.Memory.Deallocuvm` | xv6-public/vm.c:249-273 | exactly the pages from newsz to oldsz that its jumps do not miss are unmapped and their frames freed, so all are if and only if no mapped page is missed; all other maps and page contents are kept |
| `VmOps.Memory.Allocuvm` | xv6-public/vm.c:220-243 | how far it gets with the free frames at hand; new pages are zeroed, writable and user-accessible, and pages in use keep their contents; after a failed kalloc every flat map is the old one and every new page is free again, but for the one frame it may lose, under exactly the stated condition; on success a space without gaps has none below newsz if and only if no frame was lost |
| `VmOps.Memory.Freevm` | xv6-public/vm.c:277-292 | every page, table and the directory of the address space become free, each once; no other frame, map or page contents change |
| `VmOps.Memory.Setupkvm` | xv6-public/vm.c:120-144 | succeeds if and only if 65 frames are free (directory, 56 and 8 tables); the new address space then maps exactly physical memory from KERNBASE on (text read-only) and the devices at the top, and no user page; on failure every frame that was free is taken and nothing else changes |
| `VmOps.Memory.Copyuvm` | xv6-public/vm.c:309-337 | panics if and only if some page below sz is absent and the free frames last until the first such page; succeeds if and only if none is absent and they cover the kernel part, the pages and a table for each 1024 of them; the child then maps the same pages with the same flags to frames that were free and hold the same contents, and everything else is unchanged; a failure after setupkvm gives everything back but the page in hand, which is lost if and only if one frame is left where a table is needed |
| `VmCopy.CopyWhole` | xv6-public/vm.c:319-332 | the kernel part made by setupkvm, grown page by page, is a copy of the parent |
| `VmCopy.CopyUndone` | xv6-public/vm.c:334-336 | after freevm of an unfinished copy every frame is as before, but for the page in hand |
| `VmSpace.NewTable` | xv6-public/vm.c:57-62 | a zeroed table added to a directory changes no flat map |
| `VmSpace.FlatSet` | xv6-public/vm.c:83 | writing one table entry changes one flat map at one page |
| `VmSpace.MapUser` | xv6-public/vm.c:83 | mapping a frame fresh from kalloc keeps free, table and data pages a partition |
| `VmSpace.UnmapUser` | xv6-public/vm.c:263-270 | clearing an entry keeps it, with the frame then unowned |
| `VmTheorems.Partition` | xv6-public/kalloc.c:59-95 | no frame is in two of free list, tables and user pages, and no two entries of any address spaces refer to one frame |
| `VmSpace.ReachesIff` | xv6-public/vm.c:57-62 | the processor needs the flag in both the directory entry and the table entry; directory entries allow everything, so the table entry alone decides |
| `VmTheorems.MappedReaches` | xv6-public/vm.c:70-90 | after mappages each page reaches its frame for exactly the accesses that perm allows |
| `VmTheorems.GrownReaches` | xv6-public/vm.c:231-241 | user mode may read and write allocuvm's new pages, and each reaches a zeroed frame that was free |
| `VmTheorems.KernelReaches` | xv6-public/vm.c:104-126 | above KERNBASE user mode reaches nothing; the kernel reaches physical memory and the devices, and may write all of it but its text |
| `VmTheorems.CopyReaches` | xv6-public/vm.c:319-332 | for each flag, an access to a page below sz reaches a frame in copyuvm's child exactly when it does in the parent; the child's frame is its own, with the same contents |
| `VmCopy.StopsAt` | xv6-public/vm.c:329-332 | where copyuvm stops decides whether its page in hand is lost: exactly when it had one and needed a table |
| `VmCopy.KernelCost` | xv6-public/vm.c:138-141 | the tables that each entry of kmap needs on top of those before it |
| `VmTheorems.PrefixUnmapsAll` | xv6-public/vm.c:259-271 | with user mappings a prefix it does, and they are a prefix afterwards |
| `VmTheorems.MissedExample` | xv6-public/vm.c:261-262 | an address space where a page is missed |
| `VmTheorems.OneStop` | xv6-public/vm.c:231-241 | how far allocuvm gets is determined by the memory before the call; it gets to the end if and only if the free frames cover pages and tables |
| `VmTheorems.LosesIff` | xv6-public/vm.c:233-240 | a frame is lost if and only if some page of the range needs a new table when one frame is left |
| `VmTheorems.LosesExample` | xv6-public/vm.c:240 | from boot with 66 free frames, through setupkvm: allocuvm of one page returns success, the page is not mapped and the last frame is lost |
| `ShellSyntax.NextToken` | xv6-public/sh.c:266-309 | a word token spans a maximal stretch of word characters; every token but the end moves the cursor on |
| `ShellSyntax.ParseLine` | xv6-public/sh.c:345-360 | every word in a parsed tree is a whole word of the line |
| `Shell.Parser.Gettoken` | xv6-public/sh.c:266-309 | the loops compute NextToken |
| `Shell.Parser.Peek` | xv6-public/sh.c:311-321 | the cursor skips white space and the next character is tested |
| `Shell.Parser.Parseredirs` | xv6-public/sh.c:375-398 | the loop computes ParseRedirs, missing file names included |
| `Shell.Parser.Parseexec` | xv6-public/sh.c:416-447 | computes ParseExec, its panics included; ShellGrammar says which trees that gives |
| `Shell.Parser.Parseblock` | xv6-public/sh.c:400-414 | computes ParseBlock; ShellGrammar says which trees that gives |
| `Shell.Parser.Parsepipe` | xv6-public/sh.c:362-373 | computes ParsePipe |
| `Shell.Parser.Parseline` | xv6-public/sh.c:345-360 | computes ParseLine |
| `Shell.Parser.Nulterminate` | xv6-public/sh.c:450-494 | the line gets NUL at exactly the ends of the tree's words |
| `Shell.Parser.Parsecmd` | xv6-public/sh.c:328-343 | computes ParseCmd, and then every word of the tree reads, as a C string in the line, as exactly its original token |
| `Shell.WordsReadBack` | xv6-public/sh.c:449-494 | no terminator lands inside a word, for every line that parses |
| `ShellGrammar.ParseIff` | xv6-public/sh.c:328-447 | parsecmd accepts a line with tree c if and only if the line is spelled by tokens that the grammar, with its precedence of `;`, `&`, pipes and redirections among words, derives from c; the last redirection is the outermost node |
| `ShellGrammar.OneTree` | xv6-public/sh.c:328-447 | the grammar is unambiguous: a line has at most one tree |
| `ShellGrammar.LexIff` | xv6-public/sh.c:266-309 | the tokens of a line are the one way to cut it into white space, whole words, `>>` and single symbols, a `>` before `>` being part of `>>` |
| `ShellGrammar.InsideIff` | xv6-public/sh.c:375-398 | parseredirs nests each further redirection outside those before it |
| `ShellGrammar.LineSound` | xv6-public/sh.c:345-360 | what parseline accepts is derived, up to the token where it stops |
| `ShellGrammar.LineComplete` | xv6-public/sh.c:345-360 | what is derived parseline accepts, whatever closing token follows |
| `ShellPrint.RoundTrip` | xv6-public/sh.c:328-447 | every tree with non-empty words and fewer than MAXARGS words per exec node, printed fully parenthesised, parses back to the same tree with all input consumed |
| `ShellPrint.PrintInjective` | xv6-public/sh.c:328-447 | different trees print differently |
| `Grep.MatchHere` | xv6-public/grep.c:85-96 | true exactly when some prefix of the text is in the language of the pattern, up to the end if the pattern ends in $ |
| `Grep.MatchStar` | xv6-public/grep.c:99-106 | true exactly when some run of the character leaves a text that the rest matches |
| `Grep.Match` | xv6-public/grep.c:72-82 | true exactly when some stretch of the text, anchored as ^ and a final $ demand, is a concatenation of pieces of the pattern's items, for all patterns and texts |
| `Grep.FirstItem` | xv6-public/grep.c:89-94 | membership in the language, one item at a time |

## Left out

- Hardware drivers, boot code, interrupt dispatch, system call argument fetching, `exec` and console output.
- `runcmd` and the reading of command lines in the shell, the reading loop of grep, other user programs.
- Directories, path lookup and link counts.
- Inode numbers, reference counts and locks of the in-memory inode table (`iget`, `iput`, `ilock`).
- `copyout`, `loaduvm`, `inituvm`, `clearpteu`: pages are copied whole in the model, not byte by byte.
- 32-bit wrap-around of pids: `nextpid` grows without bound in the model.
- Out-of-resource panics of `balloc` and `bget` are outcomes of the methods; the kernel halts there.
- FsOps.Fs.Iupdate: the type, major, minor and nlink fields have no in-memory copy in the model; on disk they stay as they are.
- FsOps.Fs.Readi: regular files only, not the branch for device inodes.
- FsOps.Fs.Writei: regular files only, not the branch for device inodes.
- FsOps.Fs.Mount: assumes a consistent image; whether mkfs makes one is not modelled.
- LogDevice.Log.BeginOp: one pass of its loop; a call that must wait comes back later.
- LogProof.AtomicRecovery: needs the condition of `Sound`, for without it atomicity fails, as LogOverflow.AtomicIff says. The list in memory grows past the LOGSIZE entries of `lh.block` where racing calls store there; what else lies in that memory is not modelled.
- LogOverflow.AtomicIff: for disks with a block behind the log area and LOGSIZE + 2 others; `bread` of a block that the same loop already holds, which sleeps for ever, is no step.
- FsCrash.System.Filewrite: one process, with the log to itself and larger than LOGSIZE; the new contents of a block enter the cache with its log_write call, and all calls of a chunk are made at its end.
- Bio.Bcache.Bget: one pass of its loop, under bcache.lock; after MustSleep the caller comes back later.
- Bio.Bcache.Brelse: asks holders to have marked dirty or written what they changed, as the interface at the head of `bio.c` (lines 8-14) tells callers to.
- Bio.Bcache.Iderw: the disk is the in-memory one of memide.c; the interrupt-driven driver of ide.c is not modelled.
- Umalloc.Heap.Malloc: for requests up to 2^31 - 16 bytes; beyond, the sizes wrap, as Umalloc.SizesPlain says. What sbrk answers is a parameter, and the memory it hands out is new.
- Umalloc.Heap.Free: only for blocks that malloc handed out and that have not been freed.
- ProcProof.InvNext: starts after userinit; each thread holds at most one spin lock besides ptable.lock; scans of the process table are single steps, since ptable.lock is held throughout; the scheduler may pick any runnable process, not only the next one in the table.
- PipeRuns.NoneStuckIff: an end is closed only when no process is inside a call that uses it, as file reference counts ensure.
- VmOps.Memory.Deallocuvm: for oldsz up to KERNBASE, which is what its callers pass.
- VmOps.Memory.Mappages: for ranges that do not wrap past the top of memory, pages not mapped yet (else it panics) and, in user space, frames that nobody uses.
- VmOps.Memory.Allocuvm: the address space has no mapping at or above oldsz, as growproc and exec ensure.
- Shell.Parser.Parseexec: the exec node is built once its words are known, not filled in while redirections already wrap it; the resulting tree is the same.
