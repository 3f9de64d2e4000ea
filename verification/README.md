# A verified model of the core of xv6

This project models the parts of the xv6 teaching kernel and of its user programs whose correctness is
hardest to see from the code, and proves what they promise. `dafny verify dfyconfig.toml` checks all of it.

**Storage.** `BufferCache` is the block cache with its LRU ring, reference counts and pins; it carries the
logical contents of every block and the sequence of disk states, one per disk write. `RedoLog` defines the
on-disk log and proves crash atomicity over every sequence of commits, boots and power losses. `Reservation`
is the begin_op/log_write/end_op protocol as a state machine. `Log` is the log layer itself, method by method
over the cache; its commit and recovery are proved to pass through exactly the disk states of `RedoLog`, its
admission to be the steps of `Reservation`, and each of its failures to be a bget panic with an exact condition
on the buffers. `FsState` and `Fs` are block allocation, block maps, inodes, readi, writei and itrunc over the
logical blocks; `FsSpace` counts the free blocks a write needs and says exactly which blocks it logs; `File` is
fileread and filewrite. `FullLog` builds a file system on which one transaction logs MAXOPBLOCKS blocks, and
`CrashedWrite` and `GroupCommit` run writes through the redo log, one writer and many, and crash them. A buffer
that is released with its last reference must be on disk: that is the rule the log layer keeps by pinning.

**Memory.** `PageTable` holds Sv39 tables (section 4.4 of the RISC-V Privileged Architecture) as trees of table
pages beside the flat map they stand for; `Tables` counts the table pages a mapping needs; `Vm` is the page
allocator and the operations on address spaces; `ProcSpace` is a process's address space; `UserCopy` is copyout,
copyin and copyinstr; `UserSpace` is growproc, and what growing and copying do to the bytes user code sees.
Every page the kernel manages always has exactly one use: free, in the kernel's hands, a table page at one place
of one tree, or one page of one address space. The frame number and the flag bits of an entry are kept as a
record; `Encode` and `Decode` relate the record to the 64-bit word, whose shifts and masks `Bits` defines on
numbers.

**Processes.** `Proc` is fork, exit, wait, wait2, sleep, wakeup, kill and the scheduler's hand-over of p->lock,
as interleaved steps of any number of processes. A section under a single p->lock that takes no other lock is
one step, enabled when that lock is free; wait's look at its killed flag, outside any p->lock, is a step of its
own. A process that holds no lock may be preempted anywhere. The theorems hold for every run from boot.

**The rest.** `Virtio` is the disk driver with the device's own steps; `Pipe` is the ring buffer with its 32-bit
counters; `Umalloc` is the user-level allocator; `ShellGrammar` and `Shell` are the shell's parser, and
`ShellSyntax` is its grammar as derivations, apart from any parser; `Grep` is the matcher; `Rand` is the generator
of the file-system exerciser. `Options`, `Blocks`, `Bits`, `Counting` and `Modulo` are shared definitions and
arithmetic.

A panic in the source is a `None` or `false` result, or is proved not to be reached. Sleeping is a result that
says the caller must wait. What another part of the system decides (whether a user page can be read, what sbrk
returns, when the power fails) is a parameter.

Some of the results are that a promise fails, and exactly when.

- `Reservation.PanicFreeIff`: log_write tests the capacity before it looks for the block in the log, so a write
  that would be absorbed panics too once the log is full. If every operation may use all its MAXOPBLOCKS entries
  some run panics, whatever the size of the on-disk log. If every operation that holds entries keeps `keep` of
  them back, no run panics if and only if `keep` is positive and the log has room for the most that can then be
  logged. `Reservation.ShippedLog` is the shipped case.
- `Reservation.EarlyWritesFitIffRoom`: an operation that has an entry left never panics, whatever block it writes,
  if and only if the log has LOGSIZE+1 blocks; the image that mkfs writes has LOGSIZE.
- `FullLog.FullChunk`: one chunk of filewrite can use all MAXOPBLOCKS entries of its reservation, on a disk with
  enough bitmap blocks. The last of its log_writes is the inode's, and up to then it has an entry left
  (`File.OpenFile.WriteOnce`), so by `Reservation.LastEntryFits` a filewrite does not panic if the log has LOGSIZE+1
  blocks. On a disk with one bitmap block, as mkfs makes it, a chunk logs at most seven blocks.
- `Reservation.CommitsFitIff`: some commit finds no buffer, and bget panics, unless NBUF is more than the blocks a
  transaction can hold and the blocks that others have buffers of at the time. fileread takes no part in a
  transaction, so it can hold a buffer while a commit is under way. NBUF is LOGSIZE: with the shipped log of LOGSIZE
  blocks that is enough for the commit alone, and not beside one reader; for a log of LOGSIZE+1 it would not be
  enough for the commit alone (`Reservation.ShippedBuffers`).
- `Proc.KillLost`: a process killed between wait's look at its killed flag and its taking its own lock goes to sleep
  in wait all the same; killed anywhere else it never sleeps there again (`Proc.KillHeeded`).
- `Umalloc.RequestFits`: malloc asks sbrk for the bytes it means exactly for requests of at most 0x7fffffe0 bytes.

## Model

| member | source | states |
|---|---|---|
| `BufferCache.LinkAll` | kernel/bio.c:43-52 | the prev/next pointers form one ring through every buffer, newest first, with no buffer left out |
| `BufferCache.Bcache.constructor` | kernel/bio.c:26-53 | every buffer starts unbound (device 0, block 0) and the cache agrees with the disk |
| `BufferCache.Bcache.FindCached` | kernel/bio.c:66-73 | the list scan finds the block exactly when some buffer is bound to it, and finds that buffer |
| `BufferCache.Bcache.FindFree` | kernel/bio.c:75-87 | the backward scan finds, among all buffers with no references, the one whose last release is longest ago; none exactly when every buffer is referenced |
| `BufferCache.Bcache.Bget` | kernel/bio.c:58-89 | one buffer per block; a cached block gains a reference, otherwise the least recently released free buffer is rebound; the panic happens exactly when the block is uncached and no buffer is free |
| `BufferCache.Bcache.AcquireSleep` | kernel/bio.c:70-84 | the caller gets the lock exactly when no one has it, and is then the one holder; otherwise it goes on waiting and nothing changes |
| `BufferCache.Bcache.Bread` | kernel/bio.c:92-103 | the locked buffer holds the latest written contents of the block; the caller sleeps exactly when the block is held; bget panics exactly when other blocks, as many as there are buffers, are referenced; other locked buffers are untouched |
| `BufferCache.Bcache.Claim` | kernel/bio.c:58-89 | the buffer of the block, locked by this caller, or the caller waits for it, or there is none, each exactly when |
| `BufferCache.Bcache.Fill` | kernel/bio.c:98-101 | an invalid buffer is read from disk once, after which it holds the block |
| `BufferCache.Bcache.SetData` | kernel/bio.c:105-112 | changing a held buffer changes the logical contents of that block only |
| `BufferCache.Bcache.Bwrite` | kernel/bio.c:106-112 | exactly that block reaches the disk; one more disk state in the history |
| `BufferCache.Bcache.MoveToHead` | kernel/bio.c:128-133 | unlinking and relinking keeps one ring and makes the buffer the newest |
| `BufferCache.Bcache.Brelse` | kernel/bio.c:116-137 | a reference goes; on the last one the buffer becomes the newest free one |
| `BufferCache.Bcache.Bpin` | kernel/bio.c:139-144 | a pin is one more reference to the block |
| `BufferCache.Bcache.Bunpin` | kernel/bio.c:146-151 | a pin goes; the block must be on disk if it was the last reference |
| `BufferCache.UnlinkKeepsRing` | kernel/bio.c:128-129 | removing any buffer from the ring leaves a ring of the rest |
| `BufferCache.PushFrontKeepsRing` | kernel/bio.c:47-51 | adding a buffer behind the head gives a ring with it in front |
| `BufferCache.MoveToFrontKeepsRing` | kernel/bio.c:128-133 | the four pointer writes of brelse are a move to the front |
| `BufferCache.MoveToFrontKeepsAge` | kernel/bio.c:128-133 | list order stays the order of last release |
| `BufferCache.RebindKeeps` | kernel/bio.c:78-82 | rebinding a free buffer keeps at most one buffer per block and loses no unwritten contents |
| `BufferCache.RebindKeepsCounts` | kernel/bio.c:78-82 | each reference count stays exactly the holder, the pins and the waiters of its block |
| `BufferCache.FillKeeps` | kernel/bio.c:98-101 | a disk read agrees with the logical contents |
| `BufferCache.RewriteKeeps` | kernel/bio.c:105-112 | a change to a held buffer keeps the cache coherent |
| `BufferCache.WriteKeeps` | kernel/bio.c:106-112 | a disk write keeps the cache coherent |
| `BufferCache.RecountKeeps` | kernel/bio.c:125-144 | changing one count by one keeps all counts exact |
| `BufferCache.NoBufferIs` | kernel/bio.c:75-88 | the bget panic in terms of the blocks referenced: this one is not, and as many as there are buffers are |
| `RedoLog.HeadRoundTrip` | kernel/log.c:85-114 | reading back a written log header gives the same block list |
| `RedoLog.LogWrittenAt` | kernel/log.c:178-191 | after k turns of write_log exactly the first k log blocks have changed |
| `RedoLog.InstalledAt` | kernel/log.c:68-83 | after k turns of install_trans exactly the first k home blocks have changed, to their log copies |
| `RedoLog.CommitBeforeHeader` | kernel/log.c:193-203 | a crash at any disk write before the header write recovers to the state before the transaction |
| `RedoLog.CommitAfterHeader` | kernel/log.c:193-203 | a crash at any disk write from the header write on recovers to the whole transaction |
| `RedoLog.CommitAtomic` | kernel/log.c:193-203 | every prefix of the disk writes of commit recovers to all or nothing, decided by the header write |
| `RedoLog.CommitIsRecovery` | kernel/log.c:116-203 | the second half of a commit writes the same disks as a recovery |
| `RedoLog.RecoveredSealed` | kernel/log.c:116-123 | recovery of a sealed log applies exactly the logged blocks |
| `RedoLog.RecoverAtomic` | kernel/log.c:116-123 | a crash at any disk write of recovery, followed by recovery, gives what the first recovery would have |
| `RedoLog.AfterOk` | kernel/log.c:116-203 | one commit, boot or power loss takes any reachable disk to one that recovers as the transactions say |
| `RedoLog.CrashAtomicity` | kernel/log.c:68-203 | over every sequence of commits, boots and power losses at any disk write, the recovered home blocks are those of exactly the transactions whose header was written, in order |
| `Reservation.BeginFits` | kernel/log.c:133 | an operation that begin_op admits has room for MAXOPBLOCKS more log entries |
| `Reservation.StepKeepsReserved` | kernel/log.c:126-235 | begin_op, log_write with absorption, end_op and commit keep logged plus reserved entries within LOGSIZE |
| `Reservation.RunKeepsReserved` | kernel/log.c:126-235 | the same after every interleaving of operations |
| `Reservation.EarlyWritesFitIffRoom` | kernel/log.c:220-221 | an operation that has an entry of its reservation left makes its log_write without a panic, in every run, if and only if log.size is at least LOGSIZE+1; the shipped size (mkfs/mkfs.c line 25) is one short |
| `Reservation.RunTallies` | kernel/log.c:214-235 | in every run, what a live operation has written is still logged, and it has spent at most one entry for each of those blocks |
| `Reservation.FewLoggedFit` | kernel/log.c:220-221 | whatever the others do, an operation that has logged fewer than MAXOPBLOCKS different blocks can make another log_write, absorbed or not, if log.size is at least LOGSIZE+1 |
| `Reservation.LastEntryFits` | kernel/file.c:157-163 | so an operation that logs at most MAXOPBLOCKS blocks, one of them last, as filewrite does with the inode's, never panics there |
| `Reservation.PanicFreeIff` | kernel/log.c:214-235 | over every run in which operations keep `keep` of their entries back and rewrite logged blocks at will, no log_write panics if and only if `keep` is positive and log.size is at least two more than the most blocks that can be logged |
| `Reservation.OnlyAbsorbedTrip` | kernel/log.c:220-228 | with log.size at least LOGSIZE+1 the only log_write that panics is of a block already logged, with LOGSIZE blocks logged and every reservation used up |
| `Reservation.ShippedLog` | kernel/param.h:9-10 | with MAXOPBLOCKS 10 and LOGSIZE 30 a log of 30 or 31 blocks lets some run panic if operations may use every entry, and none if each keeps one back |
| `Reservation.RunKeepsThin` | kernel/log.c:126-235 | operations that keep entries back never log more than the bound |
| `Reservation.FillMost` | kernel/log.c:126-235 | and some run logs as many |
| `Reservation.CommitsFitIff` | kernel/log.c:178-203 | every commit of every run finds the buffers it needs, beside `others` blocks that other processes refer to, if and only if NBUF exceeds the blocks a transaction can hold and those together |
| `Reservation.ShippedBuffers` | kernel/param.h:10-11 | NBUF 30 suffices for a log of 30 blocks with no one else reading, and not beside one reader; it does not suffice for a log of 31 |
| `Reservation.AllBegin` | kernel/log.c:126-142 | as many operations as fit can be outstanding at once |
| `Reservation.FillUp` | kernel/log.c:214-235 | with log.size at most LOGSIZE, outstanding operations can fill the log to where the next write of a new block panics |
| `Log.LogLayer.CopyAndWrite` | kernel/log.c:76-77 | the copy reaches the destination block on disk and in the logical contents, and no other block changes |
| `Log.LogLayer.ReleaseBoth` | kernel/log.c:80-81 | both buffers go, each pinned or already on disk |
| `Log.LogLayer.CopyToLog` | kernel/log.c:183-190 | one turn: the log block gets the contents of the cached block, on disk and in cache; it fails exactly when every buffer is referenced, by the logged blocks and by others' reads; what others hold and wait for stays |
| `Log.LogLayer.WriteLog` | kernel/log.c:178-191 | disk and cache go through the states of LogWritten, one write at a time; it fails exactly when there is something to write and every buffer is referenced |
| `Log.LogLayer.EncodeHead` | kernel/log.c:108-111 | the header block encodes the count and the block numbers |
| `Log.LogLayer.WriteHead` | kernel/log.c:102-114 | one disk write installs the header, unless no buffer is free, exactly, whatever others hold |
| `Log.LogLayer.ReadHead` | kernel/log.c:86-97 | the in-memory header is the one on disk, unless no buffer is free, exactly |
| `Log.LogLayer.CopyToHome` | kernel/log.c:73-82 | one turn: the home block gets the log copy; the pin goes unless recovering; it fails exactly when either bread finds no buffer, beside what others hold |
| `Log.LogLayer.PutHome` | kernel/log.c:76-81 | with both buffers in hand the turn copies, writes, unpins and releases |
| `Log.LogLayer.InstallOne` | kernel/log.c:73-82 | the same turn as a step of the installation; while committing it fails exactly when the pins that are left and others' references fill the cache |
| `Log.LogLayer.InstallTrans` | kernel/log.c:68-83 | disk and cache go through the states of Installed; at the end every pin is gone and what others hold is as before; with anything to install it fails exactly when every buffer is referenced at the start, or with fewer than two buffers when recovering |
| `Log.LogLayer.Commit` | kernel/log.c:193-203 | the sequence of disk states is CommitDisk, in order, and the log is empty afterwards; it completes exactly when nothing is logged or some buffer is not referenced by the logged blocks or by others |
| `Log.LogLayer.RecoverFromLog` | kernel/log.c:116-123 | the sequence of disk states is RecoverDisk and the result is the recovered disk; it completes exactly with two buffers, or one if the log is empty |
| `Log.LogLayer.BeginOp` | kernel/log.c:126-142 | admits exactly when the reservation rule allows |
| `Log.LogLayer.FindLogged` | kernel/log.c:225-228 | finds the block in the header exactly when it is logged |
| `Log.LogLayer.Record` | kernel/log.c:229-233 | the block is logged once and pinned once |
| `Log.LogLayer.LogWrite` | kernel/log.c:214-235 | panics exactly when the log is full; otherwise is the write step of the reservation protocol |
| `Log.LogLayer.EndOp` | kernel/log.c:146-175 | the last operation commits, while others may hold and wait for blocks they read, exactly when nothing is logged or some buffer is referenced by no one: every disk state it passes through recovers to the old disk or to the whole logical contents, and afterwards disk and cache agree |
| `Log.LogLayer.CommitAll` | kernel/log.c:168-175 | the commit as a caller sees it: atomic at every disk write, and complete exactly when a buffer is left over |
| `Log.FullWhen` | kernel/bio.c:75-88 | every buffer is referenced exactly when NBUF is at most the logged blocks and the blocks others refer to, counted together |
| `Log.LogLayer.InitLog` | kernel/log.c:54-65 | boot recovers, exactly with two buffers, or one if the log is empty; every disk state it passes through recovers to the same blocks |
| `Log.LogLayer.Take` | kernel/log.c:210 | reading a block for update keeps the log layer consistent and holds the block; the caller sleeps exactly when it is held, and there is no buffer exactly when bget panics |
| `Log.LogLayer.Change` | kernel/log.c:211 | changing a held block changes its logical contents only |
| `Log.LogLayer.Release` | kernel/log.c:213 | a logged block may be released before it is on disk |
| `Log.LogLayer.Update` | kernel/log.c:205-213 | read, change, log_write and release change the logical contents of the block and not the disk; it fails exactly when the block is held, no buffer is free or the log is full |
| `Log.SettledApply` | kernel/log.c:193-203 | applying the logged values to the disk gives the logical contents: no logged update is lost |
| `Log.CommitSettles` | kernel/log.c:193-203 | after a commit the disk is the logical contents |
| `Log.CommitTraceAtomic` | kernel/log.c:193-203 | every disk in the history of the commit recovers to all or nothing |
| `Log.RecoverTraceAtomic` | kernel/log.c:116-123 | every disk in the history of the recovery recovers to the same blocks |
| `Bits.MaskedBit` | kernel/fs.c:74-76 | adding or taking away one bit of a byte changes that bit and no other |
| `FsState.FlipBitAt` | kernel/fs.c:73-100 | setting or clearing a bit changes that block's bit and no other |
| `FsState.AllocateKeeps` | kernel/fs.c:64-86 | a block marked in use belongs to no file yet |
| `FsState.AttachKeeps` | kernel/fs.c:384-393 | storing a new block in an inode slot gives it exactly one owner |
| `FsState.AttachEntryKeeps` | kernel/fs.c:396-399 | storing a new block in the indirect block gives it exactly one owner |
| `FsState.FreeKeeps` | kernel/fs.c:89-103 | clearing the bit of a detached block keeps bitmap and maps in agreement |
| `FsState.ClearSlotKeeps` | kernel/fs.c:419-419 | clearing the inode slot of a freed block keeps ownership exact |
| `FsState.ClearIndirectKeeps` | kernel/fs.c:431-432 | dropping the indirect block drops its entries |
| `FsState.OwnershipExact` | kernel/fs.c:64-437 | the bitmap marks exactly the metadata blocks and the blocks some inode reaches, and no block is reached twice |
| `FsState.ContentsSame` | kernel/fs.c:455-477 | a file whose blocks are untouched reads the same |
| `FsState.WriteContents` | kernel/fs.c:497-506 | writing within one block of a file changes exactly those bytes of its contents |
| `FsState.ExtendsContents` | kernel/fs.c:377-405 | allocating blocks for one file changes the contents of none |
| `FsState.DinodeRoundTrip` | kernel/fs.c:221-313 | an inode written to its slot is read back, and other inodes of the block are untouched |
| `FsState.DinodeBytes` | kernel/fs.h:32-39 | the byte at which iupdate stores each field: 64-byte inodes with four shorts, the size and thirteen addresses, low byte first |
| `FsState.OverlayRead` | kernel/fs.c:455-517 | after a write the written range reads back and the rest is as before |
| `FsState.ReadChunk` | kernel/fs.c:466-475 | the part of a block that readi copies is that part of the contents |
| `FsState.NextTurn` | kernel/fs.c:497-499 | each turn of the loop ends at a block boundary or at the end |
| `FsState.LogBoundFits` | kernel/file.c:149-155 | the bound on the blocks a chunk logs, with its inode, is the budget of filewrite, and less on a disk with few bitmap blocks |
| `FsSpace.FreeCount` | kernel/fs.c:64-86 | the free blocks are exactly the data blocks without an owner, and so many |
| `FsSpace.WantedSize` | kernel/fs.c:377-405 | a range of file blocks uses one slot each, and the indirect block if it reaches past the direct ones |
| `FsSpace.FilledOne` | kernel/fs.c:377-405 | recording a block for a slot fills that slot and no other |
| `FsSpace.GrewJoin` | kernel/fs.c:377-405 | what two allocations log and use adds up |
| `FsSpace.SpaceShort` | kernel/fs.c:497-506 | a turn that lacks blocks means that the whole write does |
| `FsSpace.SpendingStep` | kernel/fs.c:497-506 | each turn of writei logs exactly its allocations and its data block |
| `FsSpace.SpendingBound` | kernel/file.c:143-149 | those are at most two blocks a turn, one less for an unaligned start, and two for the indirect block |
| `FsSpace.TurnsVisit` | kernel/fs.c:497-506 | how many turns the loop takes, with unreadable bytes from some point on |
| `FsSpace.GainedShort` | kernel/file.c:151-171 | a transaction that runs out of blocks means that the whole write needs more than were free |
| `FsSpace.BitmapBound` | kernel/fs.c:409-437 | the bitmap blocks of any blocks are at most those of the disk |
| `Fs.FileSystem.Balloc` | kernel/fs.c:64-86 | the first free block, now marked and zeroed; none exactly when every bit is set |
| `Fs.FileSystem.Bfree` | kernel/fs.c:89-103 | fails exactly when the block is free; otherwise clears its bit alone |
| `Fs.FileSystem.AllocSlot` | kernel/fs.c:384-393 | an empty inode slot gets a fresh block, owned by it alone, exactly when some data block has no owner; what it logs, exactly |
| `Fs.FileSystem.AllocEntry` | kernel/fs.c:396-399 | an empty indirect entry gets a fresh block, owned by it alone, exactly when some data block has no owner; what it logs, exactly |
| `Fs.FileSystem.Bmap` | kernel/fs.c:377-405 | the address of the nth block, allocated if missing; it fails exactly when fewer blocks are free than slots to fill; ownership stays exact, no file's contents change, and the blocks logged are exactly those of the allocation |
| `Fs.FileSystem.BmapBlock` | kernel/fs.c:391-393 | there is an indirect block afterwards, exactly when there was one or a block is free |
| `Fs.FileSystem.BmapEntry` | kernel/fs.c:394-401 | the entry has a block afterwards, exactly when it had one or a block is free |
| `Fs.FileSystem.BmapIndirect` | kernel/fs.c:390-402 | the same for entries of the indirect block, which may need two blocks |
| `Fs.FileSystem.Iupdate` | kernel/fs.c:221-237 | the inode on disk is the one in memory, in all its fields; every other inode of the block is as it was |
| `Fs.FileSystem.Readi` | kernel/fs.c:455-477 | returns exactly the requested slice of the contents, clipped at the end of file; 0 past the end or on wrap-around; -1 when the destination cannot be written; nothing changes |
| `Fs.FileSystem.WriteChunk` | kernel/fs.c:498-505 | one block's share of the write; it fails exactly when fewer blocks are free than this block needs; the block is logged exactly when all its bytes were copied in |
| `Fs.FileSystem.WriteLoop` | kernel/fs.c:497-506 | the contents so far are the old ones overlaid with the bytes copied; the bytes reported are all, or those in complete blocks of the file before the first unreadable one; it fails exactly when fewer blocks are free than the file lacks in the range it gets to; the blocks logged, exactly |
| `Fs.FileSystem.Writei` | kernel/fs.c:486-517 | refused exactly past the end, on wrap-around or beyond MAXFILE; out of blocks exactly when fewer are free than the file lacks in the range; otherwise exactly the written range is replaced or appended and other files are unchanged; the amount returned is all, or ends at the last block boundary of the file before the first unreadable byte; the blocks logged are exactly the new ones, their bitmap blocks, the blocks written in full, the indirect block if it gets an entry, and the inode's; no other block changes if all bytes could be read |
| `Fs.FileSystem.TruncDirect` | kernel/fs.c:416-421 | the direct blocks are freed, and nothing else; their bitmap blocks are logged |
| `Fs.FileSystem.TruncIndirect` | kernel/fs.c:423-433 | the indirect blocks are freed, and nothing else; their bitmap blocks are logged |
| `Fs.FileSystem.Itrunc` | kernel/fs.c:409-437 | the file is empty, every block it owned and no other is free, the free-block panic is not reached, other files are unchanged; logged are exactly the bitmap blocks of its blocks and the inode's, so at most one more than the bitmap has |
| `File.OpenFile.FileRead` | kernel/file.c:107-130 | what read returns, exactly: the bytes from the offset up to n or the end of the file; 0 past the end or on wrap-around; -1 when the file may not be read or the memory cannot be written; the offset advances by what was read |
| `File.OpenFile.ReadAll` | user/cat.c:12-17 | reads repeated until one returns 0 give, joined, exactly the file from the first offset on |
| `File.OpenFile.WriteOnce` | kernel/file.c:157-168 | one transaction logs at most MAXOPBLOCKS blocks, and exactly which, all of them outside the log; without the inode's, which comes last, there is an entry left, and there are more left if the disk has few bitmap blocks; the amount written is exact when bytes are unreadable; out of blocks exactly when fewer are free than the chunk needs |
| `File.OpenFile.FileWrite` | kernel/file.c:135-181 | every transaction logs at most MAXOPBLOCKS blocks; out of blocks exactly when fewer are free than the file lacks for the chunks attempted; otherwise all bytes are written and the offset moves past them, or -1 and exactly this prefix: the chunks that fit the largest file, or, if bytes are unreadable before that, the whole chunks and then the whole blocks of the file before the first of them; a negative length is -1 and changes nothing; the file system before and after each transaction, and what it logs |
| `File.OpenFile.WriteNext` | kernel/file.c:152-171 | one turn of the loop: the next chunk is written, cut short by an unreadable byte at an exact place, refused or out of blocks, and what that means for the whole write |
| `File.ReachIs` | kernel/file.c:152-171 | where the write stops at an unreadable byte: the whole chunks before it and what writei reports of the next one |
| `File.AttemptedChunk` | kernel/file.c:149-171 | which chunks a write that would get too big still attempts |
| `File.FilewritingStep` | kernel/file.c:152-171 | a chunk in full keeps the loop's account; a chunk cut short ends it |
| `FullLog.Empty` | mkfs/mkfs.c:235-248 | a disk with the metadata bits set and no inode in use is a consistent file system |
| `FullLog.Fill` | kernel/fs.c:64-405 | giving out blocks one by one keeps it consistent, up to a disk that is full but for one block under each of c+1 bitmap blocks |
| `FullLog.TightLog` | kernel/file.c:143-149 | a chunk of c blocks that starts inside the last block of a file, reaches past the direct blocks and finds each of its c+1 new blocks under a bitmap block of its own logs exactly 2c+4 blocks |
| `FullLog.TightExists` | kernel/file.c:143-149 | for every such c, and every place in the direct blocks, there is a consistent file system where that happens |
| `FullLog.FullChunk` | kernel/file.c:149-163 | there the transaction of a full chunk logs exactly MAXOPBLOCKS blocks: the bound is tight |
| `CrashedWrite.StepsJoin` | kernel/log.c:193-203 | over any number of transactions in a row only the blocks they log change |
| `CrashedWrite.ApplyGroup` | kernel/log.c:193-203 | committing a group of transactions takes the disk from the file system before the first to the one after the last |
| `CrashedWrite.ReplayGroups` | kernel/log.c:193-203 | however transactions are grouped in commits, the disk holds the file system after those in groups whose header is written |
| `CrashedWrite.ReadBack` | kernel/fs.c:299-309 | a file read from the disk is the file in memory: it uses no block of the log |
| `CrashedWrite.WriteSurvives` | kernel/file.c:151-171 | however the machine crashes while a write goes through the log, with any number of chunks to a commit, the recovered file is the old one with the first c chunks written over it, c being the chunks in commits whose header was written, and every other file is as it was |
| `CrashedWrite.ChunkFits` | kernel/log.c:214-235 | every chunk's transaction fits a log of MAXOPBLOCKS entries |
| `GroupCommit.Transact` | kernel/file.c:157-163 | one transaction of filewrite, whose bytes can all be read: succeeds exactly within the file size limit and the free blocks, and then writes its bytes into its file, leaves every other file alone and logs all it changes |
| `GroupCommit.HistoryFiles` | kernel/file.c:157-163 | after any sequence of such transactions, by any writers, each file is what its own chunks in order make of it |
| `GroupCommit.WritesSurvive` | kernel/log.c:146-203 | however the transactions of any number of writers are put together in commits, and wherever crashes fall, every file recovers to its old contents with exactly its chunks in completed commits written over it |
| `GroupCommit.FileSurvives` | kernel/file.c:151-171 | whatever others write in the same commits, a crash leaves of a filewrite its first chunks, whole, in place |
| `PageTable.PteRoundTrip` | kernel/riscv.h:341-352 | every entry, whatever its frame below 2^44 and its flags, survives packing into its word and unpacking |
| `PageTable.PxIs` | kernel/riscv.h:354-357 | the shift and mask of PX give the index that a walk uses for the page of the address |
| `Bits.OrLow` | kernel/riscv.h:347-352 | or-ing a number into bits that another leaves free adds them |
| `Bits.AndMask` | kernel/riscv.h:352-357 | masking with k one bits is the remainder modulo 2^k |
| `PageTable.PxRoundTrip` | kernel/riscv.h:354-363 | an address below MAXVA is determined by its three indices and offset; the top index is below 256 |
| `PageTable.MiddleIs` | kernel/vm.c:86-96 | a walk reaches only level-1 tables of its own tree |
| `PageTable.BottomIs` | kernel/vm.c:86-97 | a walk reaches only level-0 tables of its own tree, for the right pages |
| `PageTable.SlotsDiffer` | kernel/vm.c:80-98 | two pages have the same slot only if they are the same page of the same address space |
| `PageTable.LeafWriteView` | kernel/vm.c:151-153 | writing a level-0 entry changes the flat map at one page of one address space |
| `PageTable.MapKeeps` | kernel/vm.c:151-153 | mapping keeps the trees well formed and gives a user frame one owner |
| `PageTable.UnmapKeeps` | kernel/vm.c:181-185 | unmapping keeps the trees well formed |
| `PageTable.TableKeeps` | kernel/vm.c:91-94 | linking in a cleared table page keeps the trees well formed |
| `PageTable.TableView` | kernel/vm.c:91-94 | a new table page maps nothing |
| `PageTable.FrameView` | kernel/vm.c:80-98 | address spaces whose own tables are untouched are mapped as before |
| `PageTable.RootKeeps` | kernel/vm.c:189-200 | a cleared page is a well-formed empty tree |
| `PageTable.DropKeeps` | kernel/vm.c:266-281 | an empty table page may be freed before the pointer to it is cleared |
| `PageTable.OnlyPointer` | kernel/vm.c:266-282 | one slot points to each table page |
| `PageTable.ClearKeeps` | kernel/vm.c:276-276 | clearing that slot makes the tree whole again |
| `PageTable.OneNode` | kernel/vm.c:80-98 | the place of a table page in the tree determines the page |
| `PageTable.NothingBelow` | kernel/vm.c:270-280 | no table page is below an invalid entry |
| `Tables.TableThere` | kernel/vm.c:86-96 | an entry on the way to a page is valid exactly if the table page it leads to is there |
| `Tables.PaidJoin` | kernel/vm.c:80-98 | the table pages two walks make add up |
| `Tables.SpentMore` | kernel/vm.c:231-241 | filling one page more costs its frame and the table pages it lacks; if they are not there, the whole range costs too much |
| `Vm.PopKeeps` | kernel/kalloc.c:73-76 | taking the head of the free list leaves the list of the rest |
| `Vm.PushKeeps` | kernel/kalloc.c:57-61 | putting a page in front keeps one list of exactly the free pages |
| `Vm.Memory.constructor` | kernel/kalloc.c:26-31 | all pages start on the free list, each once |
| `Vm.Memory.Freerange` | kernel/kalloc.c:33-40 | exactly the pages of the range become free |
| `Vm.Memory.Kalloc` | kernel/kalloc.c:68-82 | fails exactly when no page is free; otherwise one free page changes hands and no mapping or user byte changes |
| `Vm.Memory.Kfree` | kernel/kalloc.c:46-63 | the page goes back to the list |
| `Vm.Memory.Walk` | kernel/vm.c:80-98 | the slot of the page; with alloc, succeeds exactly when as many pages are free as table pages are missing on the way, takes exactly those, and changes no mapping |
| `Vm.Memory.MapOne` | kernel/vm.c:149-153 | one page becomes mapped, exactly when the free pages cover the missing table pages; otherwise no mapping changed |
| `Vm.Memory.Mappages` | kernel/vm.c:137-160 | exactly the pages of the range become mapped, to consecutive frames, exactly when the free pages cover the table pages the range is missing; otherwise exactly the first ones |
| `Vm.RangePages` | kernel/vm.c:146-147 | the pages mapped for a range of addresses are exactly those with an address of the range in them |
| `Vm.Memory.UnmapOne` | kernel/vm.c:175-185 | one page becomes unmapped; its frame, if owned, is free if asked and the caller's if not |
| `Vm.Memory.Uvmunmap` | kernel/vm.c:165-187 | exactly the pages of the range become unmapped; the frames owned there are free if asked and the caller's if not |
| `Vm.Memory.Uvmcreate` | kernel/vm.c:189-200 | a new address space with nothing mapped |
| `Vm.Memory.FillPage` | kernel/vm.c:231-241 | kalloc, fill and map one page, exactly when a page and the missing table pages are free; on failure no page is lost |
| `Vm.Memory.Uvmalloc` | kernel/vm.c:220-244 | exactly the pages up to newsz become mapped, zeroed, to frames that were free; it fails exactly when fewer pages are free than the new ones and the missing table pages, and then every mapping is as before and at most table pages of this space were added |
| `Vm.Memory.Uvmdealloc` | kernel/vm.c:250-262 | exactly the pages beyond the new size are unmapped and freed |
| `Vm.Memory.Uvmcopy` | kernel/vm.c:300-328 | the child maps copies of the pages with the same flags and bytes in frames that were free; it fails exactly when fewer pages are free than the copies and the missing table pages, and then its mappings are as before |
| `Vm.Memory.Freewalk` | kernel/vm.c:266-282 | exactly the table pages of the subtree become free; the "leaf" panic is not reached |
| `Vm.Memory.Uvmfree` | kernel/vm.c:286-292 | exactly the pages that served the address space become free; others are mapped as before |
| `Vm.FilledUndone` | kernel/vm.c:232-240 | undoing the pages added so far restores every mapping |
| `Vm.UnmapBorrowed` | kernel/vm.c:165-187 | unmapping pages that are not the space's own changes no page's use |
| `Vm.WholeTree` | kernel/vm.c:266-282 | every table page of an address space is in the subtree freewalk visits |
| `Vm.AllGone` | kernel/vm.c:286-292 | unmapping and then freewalk leaves no page in use by the space |
| `ProcSpace.ProcPagetable` | kernel/proc.c:175-204 | the trampoline and trapframe and nothing else are mapped, exactly when three pages are free; otherwise every page has the use it had before |
| `ProcSpace.TopRights` | kernel/proc.c:187-201 | the trampoline is the last page, for the kernel only and not writable; the trapframe is the one below, for the kernel only and not executable |
| `ProcSpace.TopTables` | kernel/proc.c:187-201 | the trampoline needs two table pages, and the trapframe then none, so the second mappages does not fail |
| `ProcSpace.Abandon` | kernel/proc.c:196-201 | what the second failure path would do |
| `ProcSpace.SpaceGone` | kernel/proc.c:189-201 | freeing a space just made gives back exactly what it took |
| `ProcSpace.ProcFreepagetable` | kernel/proc.c:208-214 | exactly the pages that served the process become free, without the unmap or freewalk panics; the trapframe and trampoline are kept |
| `UserCopy.Walkaddr` | kernel/vm.c:103-121 | the frame, exactly when the page is mapped for user code |
| `UserCopy.Copyout` | kernel/vm.c:346-366 | exactly the bytes of src are written at dstva, and no other byte of any address space; stops exactly at the first page user code may not reach |
| `UserCopy.Copyin` | kernel/vm.c:371-391 | the bytes at srcva, up to the first page user code may not reach |
| `UserCopy.CopyChars` | kernel/vm.c:412-425 | the bytes of one page up to a NUL |
| `UserCopy.Copyinstr` | kernel/vm.c:397-434 | succeeds with the bytes before the first NUL, and fails only when max bytes or an unreachable page come first |
| `UserCopy.PageWrite` | kernel/vm.c:359-359 | a write into a user page is seen in one address space only |
| `UserCopy.WrittenIsRead` | kernel/vm.c:346-391 | what copyout wrote is what copyin of the same range returns |
| `UserSpace.NewBytes` | kernel/vm.c:221-243 | every byte of memory that uvmalloc adds reads 0, and its page can be read, written and run by user code |
| `UserSpace.FilledOthers` | kernel/vm.c:221-243 | growing or filling an address space changes no other byte of any address space |
| `UserSpace.CopiedBytes` | kernel/vm.c:300-328 | after uvmcopy the child reads the parent's bytes with the parent's rights, from frames of its own, and the parent reads what it did |
| `UserSpace.UnmappedBytes` | kernel/vm.c:250-262 | memory given up is gone, and no other byte changes |
| `UserSpace.GrowProc` | kernel/proc.c:257-272 | the size moves by n, with sums cut to 32 bits; new memory is zero and usable, memory given up is gone, every other byte of every process stays; it fails exactly when fewer pages are free than needed, and then no byte changes; a process's pages are always exactly those below its size |
| `Proc.StepKeepsLocal` | kernel/proc.c:441-559 | the place a process has reached fixes its state, its locks and whether it is on a CPU |
| `Proc.StepKeepsFork` | kernel/proc.c:276-323 | a slot being filled in belongs to its forker alone until it is made runnable |
| `Proc.StepKeepsParents` | kernel/proc.c:276-383 | parent pointers name live processes, through fork, reparent, exit and freeproc |
| `Proc.StepKeepsWake` | kernel/proc.c:327-578 | no step leaves a parent asleep beside an exited child, unless init is just about to be woken by the holder of wait_lock |
| `Proc.StepKeepsHistory` | kernel/proc.c:343-432 | pids stay distinct and each exit is recorded once and reaped at most once |
| `Proc.StepKeepsKids` | kernel/proc.c:395-430 | wait's scan has recorded a child exactly if there is one in the slots behind it, and a process asleep in wait has a child |
| `Proc.StepKeepsBorn` | kernel/proc.c:276-421 | every parent pointer names the process that forked the child, or init |
| `Proc.StepKeepsUsed` | kernel/proc.c:276-323 | a slot that is taken and has not started is being forked into |
| `Proc.Rouses` | kernel/proc.c:563-578 | wakeup on its own channel, with its lock free, leaves a process awake |
| `Proc.HolderAlone` | kernel/proc.c:387-432 | while one process holds wait_lock no other is scanning or exiting |
| `Proc.Childless` | kernel/proc.c:327-338 | a process past reparent has no children |
| `Proc.RunKeeps` | kernel/proc.c:276-578 | all of the above after every interleaving of any number of processes, with preemption wherever no lock is held |
| `Proc.BootOk` | kernel/proc.c:228-252 | the state after boot satisfies the invariant |
| `Proc.NoLostWakeup` | kernel/proc.c:343-432 | in every reachable state with wait_lock free, no process sleeping in wait or wait2 has an exited child |
| `Proc.GivesUpChildless` | kernel/proc.c:424-427 | in every run, wait returns -1 to a process that is not killed only when no slot is its child |
| `Proc.SleepsForChildren` | kernel/proc.c:424-430 | in every run, wait goes to sleep only when the process has children and none of them has exited |
| `Proc.SleepersHaveChildren` | kernel/proc.c:429-430 | in every reachable state a process asleep in wait has a child |
| `Proc.ReapedByParent` | kernel/proc.c:400-420 | in every run, wait returns to a process only children that it forked, and to init also those it inherited |
| `Proc.NoSlotLost` | kernel/proc.c:276-421 | in every reachable state a slot is free, being forked into by exactly one process, init's, or has a parent to reap it |
| `Proc.LifeCycle` | kernel/proc.c:276-602 | a slot's state changes only by the step that should change it: a sleep ends only by kill or a wakeup on its channel, an exited process is freed only by its parent; the killed flag is set by kill and cleared when the slot is freed, and by nothing else |
| `Proc.LockHolderGoes` | kernel/proc.c:441-559 | in every reachable state the holder of a slot's lock can take a step |
| `Proc.NoDeadlock` | kernel/proc.c:276-578 | in every reachable state a process on a CPU can take a step or waits for a slot's lock whose holder can; the holder of wait_lock is such a process; a runnable process can be dispatched or waits for such a lock |
| `Proc.KillHeeded` | kernel/proc.c:424-424 | a process killed anywhere but between wait's look at its killed flag and its taking its own lock stays killed and never sleeps in wait again, whatever happens, until its slot is freed |
| `Proc.KillLost` | kernel/proc.c:424-430 | killed between the two, it can go to sleep at once |
| `Proc.KillCanBeLost` | kernel/proc.c:387-430 | a run from boot in which that happens |
| `Proc.ParentsLive` | kernel/proc.c:276-383 | in every reachable state a set parent pointer names a process that is neither exited nor free, and an exited process has such a parent |
| `Proc.StackLeft` | kernel/proc.c:399-421 | a child is reaped only after it has left its kernel stack, and the stack of a free or new slot is never in use |
| `Proc.ReapedOnce` | kernel/proc.c:387-432 | each exited process is returned by wait or wait2 at most once, with its exit status, and until then its slot remains |
| `Umalloc.RemoveKeeps` | user/umalloc.c:76-77 | unlinking a block keeps the list circular, in order and without adjacent blocks |
| `Umalloc.InsertKeeps` | user/umalloc.c:36-42 | linking in a block that touches no neighbour keeps it so |
| `Umalloc.GrowKeeps` | user/umalloc.c:38-40 | joining a block to the one below keeps it so |
| `Umalloc.ShrinkKeeps` | user/umalloc.c:79-81 | cutting the tail off a block keeps it so |
| `Umalloc.JoinAbove` | user/umalloc.c:33-37 | joining the block above is unlinking it and growing the new block |
| `Umalloc.JoinBelow` | user/umalloc.c:38-42 | joining or linking behind the block below |
| `Umalloc.GivenBack` | user/umalloc.c:33-42 | all four cases: exactly the block's units become free and no two free blocks touch |
| `Umalloc.FreeHeap` | user/umalloc.c:24-44 | live blocks stay disjoint and every unit from sbrk stays in exactly one free or live block |
| `Umalloc.GrowHeap` | user/umalloc.c:46-61 | the same when a new region arrives |
| `Umalloc.TakeHeap` | user/umalloc.c:75-84 | the same when a block is handed out |
| `Umalloc.UnitsFit` | user/umalloc.c:69 | a block holds the bytes asked for with less than one unit to spare |
| `Umalloc.RequestFits` | user/umalloc.c:54 | exactly the requests of at most 0x7fffffe0 bytes reach sbrk as the number of bytes meant |
| `Umalloc.BigBlock` | user/umalloc.c:46-61 | after morecore some free block is large enough |
| `Umalloc.AllSmall` | user/umalloc.c:74-89 | once the scan is back at its start no free block is large enough |
| `Umalloc.Allocator.constructor` | user/umalloc.c:21-22 | nothing free, nothing handed out |
| `Umalloc.Allocator.FindPlace` | user/umalloc.c:30-32 | the search ends, at the block after which bp belongs |
| `Umalloc.Allocator.Insert` | user/umalloc.c:30-43 | the freed block is in the list, joined to its neighbours |
| `Umalloc.Allocator.Free` | user/umalloc.c:24-44 | exactly that block stops being live; no unit is lost |
| `Umalloc.Allocator.Morecore` | user/umalloc.c:46-61 | the new units are free, or nothing changed; and the number of bytes sbrk is asked for |
| `Umalloc.Allocator.Init` | user/umalloc.c:70-73 | the first call links base to itself |
| `Umalloc.Allocator.Take` | user/umalloc.c:75-84 | the block or its tail is handed out |
| `Umalloc.Allocator.Malloc` | user/umalloc.c:63-90 | ends; asks sbrk at most once, exactly when no free block is large enough, for the bytes of the block it then frees exactly if the request is at most 0x7fffffe0; the result is a new live block disjoint from all others, or 0 exactly when sbrk was asked and refused |
| `Virtio.RingHasRoom` | kernel/virtio_disk.c:259-265 | there is a free ring slot whenever a descriptor chain can be posted |
| `Virtio.RingPush` | kernel/virtio_disk.c:259-265 | the new ring entry overwrites no pending one |
| `Virtio.PostRoles` | kernel/virtio_disk.c:226-257 | three held descriptors become one chain; no descriptor is in two |
| `Virtio.PostChains` | kernel/virtio_disk.c:226-257 | formatting touches no other request |
| `Virtio.IndicesMeet` | kernel/virtio_disk.c:300-300 | the 16-bit indices are equal exactly when everything reported has been seen |
| `Virtio.DropRoles` | kernel/virtio_disk.c:173-185 | freeing a chain frees exactly its three descriptors |
| `Virtio.Disk.constructor` | kernel/virtio_disk.c:77-141 | all descriptors free, no request |
| `Virtio.Disk.AllocDesc` | kernel/virtio_disk.c:144-154 | the first free descriptor, or none exactly when none is free |
| `Virtio.Disk.Alloc3Desc` | kernel/virtio_disk.c:189-201 | three distinct free descriptors, or fewer than three were free and all are given back |
| `Virtio.Disk.GiveBack` | kernel/virtio_disk.c:195-197 | the descriptors taken so far are free again |
| `Virtio.Disk.Format` | kernel/virtio_disk.c:226-257 | the chain tells the device the request: its type and sector, the buffer with the direction that goes with the type, and where to put the status |
| `Virtio.Disk.Announce` | kernel/virtio_disk.c:259-265 | the request is the newest available entry |
| `Virtio.Disk.Post` | kernel/virtio_disk.c:226-265 | the three descriptors taken become one posted request and the driver state is consistent again |
| `Virtio.Disk.Prepare` | kernel/virtio_disk.c:226-257 | the three descriptors describe the request and belong to it, and no other request changes |
| `Virtio.Disk.Publish` | kernel/virtio_disk.c:259-265 | the prepared request becomes one the device may take |
| `Virtio.Disk.Submit` | kernel/virtio_disk.c:203-269 | a new request in flight for what is now in the buffer, or in the block, or the caller must wait because fewer than three descriptors are free |
| `Virtio.Disk.DeviceFetch` | kernel/virtio_disk.c:259-265 | the device takes requests in the order posted |
| `Virtio.Disk.DeviceComplete` | kernel/virtio_disk.c:300-305 | going by the type of the request, which the direction of the data descriptor agrees with, the transfer is between that buffer and that block, and is reported once |
| `Virtio.Disk.DeviceRuns` | kernel/virtio_disk.c:287-293 | any steps of the device on its own move requests on and release none |
| `Virtio.Disk.IntrOne` | kernel/virtio_disk.c:300-312 | releases the buffer of the reported request; the status panic is not reached |
| `Virtio.Disk.Intr` | kernel/virtio_disk.c:282-315 | with the device taking steps before each look at the used index, exactly the requests reported until the handler stops are released, none stays reported and unreleased, and a buffer is marked busy exactly while its request is unreleased |
| `Virtio.Disk.FreeChain` | kernel/virtio_disk.c:173-185 | ends, frees exactly the chain, reaches no free_desc panic |
| `Virtio.Disk.Finish` | kernel/virtio_disk.c:276-277 | the request is gone and its descriptors free; if no other request was for its block meanwhile, what it was to move when it was posted is in the buffer and on the disk, in whatever order the device worked |
| `Virtio.TransferDone` | kernel/virtio_disk.c:203-280 | completing any request leaves the data of every other request that has its block to itself where it was |
| `Pipe.CountersWrap` | kernel/pipe.c:88-113 | the wrapped 32-bit counters tell full and empty exactly as unbounded ones would |
| `Pipe.Ring.constructor` | kernel/pipe.c:33-36 | an empty pipe, open at both ends |
| `Pipe.Ring.Put` | kernel/pipe.c:95-95 | the byte joins the end of the stream |
| `Pipe.Ring.Take` | kernel/pipe.c:123-123 | the oldest untaken byte |
| `Pipe.Ring.WriteTurn` | kernel/pipe.c:76-103 | the stream grows by exactly the bytes written, which are as many as the bytes left, the killing, readable memory and the ring's room allow, and none without a reader; it fails, sleeps or ends each exactly when that is what stops it there |
| `Pipe.Ring.ReadTurn` | kernel/pipe.c:105-130 | exactly the next bytes of the stream; one more is lost exactly when the copy out fails |
| `ShellGrammar.ArgsShown` | user/sh.c:431-442 | a printed argument list is read back |
| `ShellGrammar.BlockShown` | user/sh.c:399-413 | a parenthesised tree parses to that tree under the redirections after it |
| `ShellGrammar.LineShown` | user/sh.c:344-446 | a printed tree parses to that tree wherever a line may end |
| `ShellGrammar.ShowParses` | user/sh.c:327-446 | the grammar inverts the printer on every tree with fewer than MAXARGS words per simple command |
| `ShellGrammar.LineSame` | user/sh.c:344-446 | parsing depends on words only to place them, and every word of the tree is a token |
| `ShellSyntax.LineSound` | user/sh.c:344-446 | every line the grammar functions accept has a derivation with the tree returned |
| `ShellSyntax.LineComplete` | user/sh.c:344-446 | every derivable line is accepted, with the tree its derivation means |
| `ShellSyntax.AcceptsDerived` | user/sh.c:327-446 | a line is accepted with a tree if and only if it has a derivation that means that tree: pipes bind tighter than & and ;, and pipes and lists group to the right |
| `ShellSyntax.OneMeaning` | user/sh.c:327-446 | no line has two meanings |
| `ShellSyntax.WrapIs` | user/sh.c:380-394 | of several redirections the last one read is the outermost |
| `ShellSyntax.RedirMeans` | user/sh.c:384-393 | < reads its file, > truncates it and >> does not |
| `Shell.LexWords` | user/sh.c:265-308 | every word token is a maximal run of word characters, on both sides |
| `Shell.LexTokenizes` | user/sh.c:265-308 | every character of a text is white space or in exactly one token, which is what the text has there; >> is one token where it can be |
| `Shell.OneTokenization` | user/sh.c:265-308 | there is no other way to cut a text into tokens |
| `Shell.LexJoins` | user/sh.c:265-308 | the tokens of a text, joined, are the text without its white space |
| `Shell.TextMeans` | user/sh.c:265-446 | a line is accepted with a tree if and only if its text is cut into tokens that the grammar derives and means by that tree |
| `Shell.LexRender` | user/sh.c:265-308 | the tokens of a printed text are the tokens printed |
| `Shell.TextParses` | user/sh.c:327-446 | any text whose tokens are the printing of a tree parses to that tree, whatever its spacing |
| `Shell.ParseInvertsPrint` | user/sh.c:327-446 | printing any legal tree and parsing the text gives the tree back |
| `Shell.Parser.SkipSpace` | user/sh.c:272-273 | moves past exactly the white space |
| `Shell.Parser.Gettoken` | user/sh.c:265-308 | takes exactly the next token |
| `Shell.Parser.Peek` | user/sh.c:310-320 | takes no token and sees the next character |
| `Shell.Parser.ParseRedirs` | user/sh.c:374-397 | the redirections of the grammar, or the same failure |
| `Shell.Parser.ParseExec` | user/sh.c:415-446 | the grammar's simple command or block; ends on every input |
| `Shell.Parser.ParseBlock` | user/sh.c:399-413 | the grammar's block; ends on every input |
| `Shell.Parser.ParsePipe` | user/sh.c:361-372 | the grammar's pipeline; ends on every input |
| `Shell.Parser.ParseLine` | user/sh.c:344-359 | the grammar's line; ends on every input |
| `Shell.Parser.ParseCmd` | user/sh.c:327-342 | accepts exactly what the grammar accepts as a whole line |
| `Shell.NulTerminate` | user/sh.c:449-493 | a NUL at the end of every word of the tree and nowhere else |
| `Shell.EndsOutside` | user/sh.c:449-493 | no word ends inside another |
| `Shell.TreeReads` | user/sh.c:449-493 | after the NULs every argument and file name reads as its token |
| `Shell.Parse` | user/sh.c:327-342 | parsecmd as a whole: the grammar's tree, with every string intact in the overwritten buffer |
| `Grep.OneThenRest` | user/grep.c:91-92 | what a character item followed by a pattern matches |
| `Grep.StarThenRest` | user/grep.c:96-104 | what a starred item followed by a pattern matches |
| `Grep.Match` | user/grep.c:70-80 | true exactly when the pattern occurs in the text, by an independent definition of matching |
| `Grep.MatchHere` | user/grep.c:83-94 | true exactly when the pattern matches a prefix |
| `Grep.MatchStar` | user/grep.c:97-104 | true exactly when some number of repetitions and then the rest match |
| `Rand.SchrageFits` | user/grind.c:31-33 | no intermediate value leaves 31 bits |
| `Rand.StepIsProduct` | user/grind.c:30-35 | one step is multiplication by 16807 modulo 2^31-1 |
| `Rand.StepBackUndoes` | user/grind.c:30-38 | every step can be undone |
| `Rand.StepRedoes` | user/grind.c:30-38 | every value is reached by a step |
| `Rand.NextIsBijective` | user/grind.c:16-40 | the generator permutes its range |
| `Rand.AfterIsPower` | user/grind.c:16-48 | the kth value in closed form |
| `Rand.Generator.constructor` | user/grind.c:42 | the shipped seed |
| `Rand.Generator.Rand` | user/grind.c:44-48 | the next value of the sequence |

## Left out

- Directories, path lookup, links, devices, exec, traps, console, and the system-call layer: not modelled.
- Inode reference counts and the inode table: not modelled; an inode number stands for its in-memory inode.
- mkfs: not modelled, apart from the size of the log and the bitmap of an empty file system.
- Memory barriers, cache coherence between CPUs, and spinlocks below the level of "held or free": not modelled.
- Fairness: not stated; the process results are safety results and freedom from deadlock.
- Scheduling priorities, ready times and CPU-time accounting: not modelled; wait2 is wait with a second copy that may fail.
- TLB flushes and the kernel's own page table: not modelled.
- CrashedWrite.WriteSurvives: is about writes whose bytes can all be read; a chunk cut short by a failed copy leaves bytes in a cached block that its transaction need not log.
- Log.LogLayer.EndOp: the commit is one method. Others may hold and wait for blocks meanwhile, but they stay where they are until it ends; a commit that has to wait because a logged block is being read is not modelled.
- GroupCommit.WritesSurvive: transactions take place one after the other, as on values; the steps of two writei calls on different files are not interleaved within a transaction.
- Umalloc.Allocator.Malloc: beyond 0x7fffffe0 bytes the units of a new block are those the allocator takes it to have, not those sbrk gave; a block's size is unbounded, because user memory is far below 2^32 units.
- Shell.Parser.ParseExec: collects words and redirections and builds the tree at the end; the source links redirection nodes to an exec node that it is still filling in, and that aliasing is not captured.
- Vm.Memory.Mappages: requires that the pages are not mapped and lie below MAXVA, as the source's panics do.
- Pipe.Ring.WriteTurn: one stretch of pipewrite between sleeps; the interleaving of several writers is the caller's.
- Virtio.Disk.DeviceComplete: the device is taken to report success; the status panic is then not reached.
- Grep: the line-splitting loop of grep is not modelled; the matcher is.
- Running commands in the shell: not modelled; parsing is.
