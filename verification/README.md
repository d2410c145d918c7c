# A Dafny model of the xv6 kernel

This project models the hard cores of an xv6 kernel that was extended with
chained file blocks, kernel threads and user-level semaphores, and proves what
they promise. `dafny verify dfyconfig.toml` checks all of it.

The parts, each with its main results:

- **Redo log and buffer cache** (`LogProtocol`, `LogSafety`, `LogBounds`,
  `LogTheorems`, `LogSizing`, `BufferCache`, `RedoLog`, `CrashPoints`). The log is
  modelled twice. As a state machine, any number of processes take steps in any
  order, each critical section and each disk write is a step, and power may fail
  between any two steps any number of times. Operations log as many blocks as they
  like. A run ends where a store would go past the array log.lh.block; no run does
  that, and recovery restores the committed content from every state of every run,
  if and only if the cache has no more buffers than the log area has blocks and no
  more than LOGSIZE (`LogSizing.LogSoundIff`). The kernel and mkfs.c meet this with
  30 of each. Group commit holds over all runs; crash atomicity and the write-ahead
  rule hold up to such a store whenever the log area fits, which is more than
  LOGSIZE blocks or at least as many as there are buffers (`LogProtocol.Fits`), and
  that is exact too (`LogSizing.RecoversIffFits`). The reservation bound is the one
  result about operations that log at most MAXOPBLOCKS blocks. As classes, the code
  of log.c and bio.c runs step by step on linked buffers, and its disk writes are
  proved to be one list of writes, of which `CrashPoints` cuts any prefix.
- **Chained-block files** (`DiskBytes`, `FileChain`, `FileContents`,
  `FileUpdates`, `WriteBudget`, `LogBudget`, `FileSystem`, `Overdraft`,
  `ImageBuilder`, `ImageAgreement`). The kernel's balloc, bmap, readi, writei and
  itrunc, filewrite above them, and the image builder's iappend and balloc, on
  bytes of disk blocks: one flat byte sequence per file, block ownership, what a
  write takes and logs, and the agreement of the two walkers.
- **Directory graph** (`LinkCounts`, `DirectoryNames`, `Directories`,
  `LinkCountRuns`): what every name stands for after create, link and unlink, and
  link counts over all their runs, with the exact condition under which they stay
  right and runs in which they do not.
- **Memory** (`PageTables`, `Kalloc`, `AddressSpaces`, `Vm`, `VmCopy`,
  `ProcessSize`, `Umalloc`, `Malloc`): every physical page is free once or owned
  by exactly one place, on every path with and without memory; the user
  allocator's circle and its units.
- **Processes** (`Scheduler`, `Turns`, `Families`, `Wakeups`, `LostChild`): proc.c
  as a state machine of any number of CPUs and processes. Who executes where, that
  ptable.lock always comes free and every slot has its turn, parents and children,
  who sleeps on what and who wakes whom.
- **Concurrency** (`Semaphore`, `SemaphoreKills`, `BoundedBuffer`, `BufferTotals`,
  `Pipe`, `PipeCalls`): state machines over any number of threads, with their
  invariants and wake-up theorems, and what single calls and whole programs do.
- **Languages** (`ShellParser`, `ShellGrammar`, `ShellComplete`, `ShellSound`,
  `ShellText`, `ShellRoundTrip`, `Shell`, `Grep`): the shell's parser, which takes
  exactly the lines of a grammar and builds their trees, with round trips and
  in-place termination, and the matcher against a meaning of patterns.

A kernel panic is a halting outcome: a result of its own, or a step that cannot
be taken. Where a method can panic or fail, its contract says what state of disk,
cache or memory that implies.

Results in which the code does not do what one may expect:

- log.c tests the log size before it takes the lock. With a log area of LOGSIZE
  blocks, as mkfs.c:25 sets it, two operations can pass the test together and log
  one block more than the area has slots (`LogSizing.RacePastTheEnd`); no run does
  if and only if the area has more than LOGSIZE blocks or more blocks than there
  are buffers (`LogSizing.SlotsInAreaIff`). With as many buffers as blocks, as in
  this kernel, all of them are pinned then and commit panics for want of one before
  it has written anything (`LogSizing.CommitHasNoBuffer`), so the disk stays safe.
  With more buffers commit overwrites the block behind the area, which recovery
  does not bring back (`LogSizing.CommitOverwrites`, `LogSizing.RecoversIffFits`).
- filewrite cuts a write into pieces of three blocks so that each logs at most
  MAXOPBLOCKS blocks, but a piece can log one more: four data blocks, two index
  blocks where the chain grows, four blocks of the free map and the inode. It does
  if and only if it begins inside a mapped block, goes on into three that are
  missing, needs a new index block, and the next four free blocks have their bits
  in four blocks of the free map (`LogBudget.PieceLogs`, `Overdraft.LogTooMuch`).
- What such an operation does to the log: in a log area of more than LOGSIZE blocks
  it makes log_write panic for another operation that is within its reservation
  (`LogSizing.OverdraftStops`), which nothing else does (`LogTheorems.AdmittedPasses`).
  With more than LOGSIZE buffers it can take the store of a third operation past the
  end of log.lh.block (`LogSizing.OverdraftOverruns`); with the LOGSIZE buffers of
  this kernel no run gets there and the disk stays safe (`LogSizing.InArrayIff`).
  In the area of LOGSIZE blocks that mkfs.c makes, log_write panics for an operation
  within its reservation even when no operation logs too much
  (`LogSizing.TooSmallStops`).
- itrunc still has the old layout: it frees the head index block only
  (`FileUpdates.TruncLeaks`, `FileUpdates.TruncLeaksIndex`).
- mkfs rounds the root directory up by a whole block when it fills its last block
  exactly, which leaves it with a hole (`ImageBuilder.RootFixed`).
- Anything created or linked inside a removed directory, or a count past the
  largest short, breaks the link counts, and no other call does
  (`Directories.RunCounts`, `LinkCountRuns`).
- A failed allocuvm restores the address space if and only if nothing in the
  range was mapped (`Vm.RestoredIff`).
- A writer of a pipe that is killed skips the wake-up, so a reader can sleep on a
  full pipe (`Pipe.KilledWriterLosesWakeup`). Wake-ups are lost by exactly one kind
  of step, a writer that gives up on a full pipe while a reader sleeps
  (`Pipe.SleepersIff`).
- A thread that is killed between raising a semaphore's count and its signal
  leaves a sleeper without a wake-up, and nothing else does
  (`SemaphoreKills.WokenIff`); one that is killed between lock and unlock keeps the
  semaphore for ever (`SemaphoreKills.DeadHolder`).
- Nothing takes the mark isthread away when the slot of a thread is freed. A process
  that fork makes in such a slot counts as a thread: wait does not see it and returns
  -1 to a parent that has no other child. It sees the child if and only if no thread
  was ever in the slot (`Wakeups.ThreadIff`, `Wakeups.ForkedIsChild`,
  `LostChild.WaitMisses`).
- sbrk(-sz) of a process of size sz unmaps all of it and then reports a failure,
  because growproc takes the new size 0 for one (`ProcessSize.SbrkGives`).
- malloc cannot serve requests above 2^31 - 16 bytes, but refuses them only if sbrk
  fails. The product that morecore hands to sbrk wraps to zero or to a negative int, sbrk
  returns without memory or takes some away, and the header of the block goes to
  the old break (`Malloc.ArgumentFits`, `Malloc.TooLarge`, `Malloc.Heap.Malloc`).
  The seven largest sizes overflow before that (`Malloc.UnitsOverflow`).
- The shell gives `>>` the mode of `>` (sh.c:388-393): both open for writing and
  create, neither truncates nor appends.
- The comments above bmap in fs.c still describe direct blocks and one indirect
  block; the model follows the code, a chain of index blocks.

## Model

| member | source | states |
|---|---|---|
| LogSafety.StepKeeps | xv6-public/log.c:69-233 | Every step of every process, every disk write and every crash keeps the invariant of the whole system, for a log area that fits and whatever is logged: processes, cache, in-memory header, log area and what recovery would restore |
| LogSafety.WriteLogInArea | xv6-public/log.c:177-190 | If the area has as many blocks as the cache has buffers, no slot that write_log() writes is outside it: the blocks of the transaction pin a buffer each and the slot needs one more |
| LogSafety.RunInv | xv6-public/log.c:54-233 | The invariant holds in every state of every run, from a fresh file system, with crashes at any point and whatever the operations log, if the log area fits: more than LOGSIZE blocks, or as many as there are buffers |
| LogBounds.RunKeepsOps | xv6-public/log.c:125-174 | For every size of log area and cache and whatever is logged: in every state of every run at most one process commits or recovers, the count of open operations is right, and there are no more than fit an empty log |
| LogBounds.RunKeepsPassed | xv6-public/log.c:213-233 | In every run logged blocks and the operations behind the size test of log_write() are together at most two past the last slot |
| LogBounds.TestedOnce | xv6-public/log.c:213-233 | In every run each block that an operation logs has a size test of its own before it |
| LogBounds.RunKeepsSleep | xv6-public/log.c:125-174 | In every state of every run: a process asleep in begin_op() would have to sleep again if it were woken now |
| LogBounds.RunKeepsHeader | xv6-public/log.c:85-113 | For every size of log area and cache: in every state of every run the headers on disk and in memory name blocks outside the log without duplicates, and the cached header block is the one on disk |
| LogTheorems.ViewExists | xv6-public/bio.c:61-116 | Wherever the invariant holds each block has exactly one content: cached data if a valid buffer has it, else the disk |
| LogTheorems.StepKeepsView | xv6-public/bio.c:61-141 | Lookup, recycling, reading, logging, committing and releasing change the content of no home block; only a client's own store does |
| LogTheorems.HeaderCommitsView | xv6-public/log.c:101-113 | The header write commits, on every home block at once, exactly the content that the operations of the transaction see |
| LogTheorems.RecoveredIsCommitted | xv6-public/log.c:115-122 | A completed recovery puts every home block at its committed content |
| LogTheorems.RecoveryYieldsLastCommit | xv6-public/log.c:115-122 | If the log area fits: from any later state, after any crashes, partial installs, partial recoveries and new operations, recovery yields all of the last transaction whose header reached the disk and nothing of a later one |
| LogTheorems.RecoveryYieldsInitial | xv6-public/log.c:115-122 | Before the first header write recovery yields the disk as it was made, if the log area fits |
| LogTheorems.QuiescentDisk | xv6-public/log.c:192-202 | A commit or recovery that has run to its end left every home block on disk at its committed content, if the log area fits |
| LogTheorems.WriteAheadRule | xv6-public/log.c:213-233 | If the log area fits: until the header is written, a logged block has its committed content on disk and its new content in a valid, pinned buffer |
| LogTheorems.ChangesAreLogged | xv6-public/log.c:213-233 | If the log area fits: a home block whose content differs from the committed one is logged, or still held by the client that changed it |
| LogTheorems.GroupCommit | xv6-public/log.c:125-174 | In every run, whatever the size of the log area: while a commit runs no operation is open, so the panic in end_op() is unreachable and nothing is logged; at most one process commits or recovers; whoever sleeps in begin_op() sleeps for a reason that still holds: a commit runs, or operations are open and the reservation does not fit |
| LogTheorems.HeaderBound | xv6-public/log.c:213-233 | In every run, whatever is logged, the header has at most LOGSIZE entries and no block twice; every slot in use is in the area if that has more than LOGSIZE blocks or more blocks than there are buffers |
| LogTheorems.ReservationBound | xv6-public/log.c:125-141 | In every run in which no operation has logged more than MAXOPBLOCKS blocks, logged blocks plus all unspent reservations never exceed LOGSIZE, whatever the size of the log area |
| LogTheorems.AdmittedPasses | xv6-public/log.c:213-222 | In such a run an operation with reservation left finds room in the header, and log_write() does not panic for it if the log area has more than LOGSIZE blocks |
| LogTheorems.NeverOverruns | xv6-public/log.c:224-230 | In every run, whatever is logged, no store goes past log.lh.block if there are at most LOGSIZE buffers or the log area is smaller than the array |
| LogTheorems.LoggedSince | xv6-public/log.c:213-233 | In every run the in-memory header names a block if and only if log_write() was called for it since the header was last empty |
| LogSizing.RacePastTheEnd | xv6-public/log.c:213-233 | A concrete run, for every log area of at most LOGSIZE blocks and every cache of at least as many buffers, all of them released: two operations pass the size test, which is read before the lock is taken, and more blocks are logged than the area has slots |
| LogSizing.SlotsInAreaIff | xv6-public/log.c:213-233 | For every number of buffers and whatever is logged, all runs keep their slots in the log area, up to an overrun of the array, if and only if the area has more than LOGSIZE blocks or more blocks than there are buffers; mkfs.c gives it exactly LOGSIZE, and so many buffers there are |
| LogSizing.CommitHasNoBuffer | xv6-public/log.c:177-190 | What follows with as many buffers as blocks: after that race all are pinned, no slot is cached, and no process can get a buffer, so commit() panics in bget() |
| LogSizing.CommitOverwrites | xv6-public/log.c:177-190 | What follows with one buffer more: commit() overwrites the block behind the log area, which no operation has logged, while the header on disk is empty |
| LogSizing.RecoversIffFits | xv6-public/log.c:69-202 | The exact condition for crash atomicity, for every number of buffers and whatever is logged: recovery brings every home block to its committed content, from every state of every run up to an overrun of the array, if and only if the area has more than LOGSIZE blocks or at least as many as there are buffers |
| LogSizing.OverdraftOverruns | xv6-public/log.c:213-233 | A reachable state, for every log area of at least LOGSIZE blocks and every cache of more than LOGSIZE buffers: one operation has logged MAXOPBLOCKS + 1 blocks, the others no more than they may, and the store of one of them goes past the array |
| LogSizing.InArrayIff | xv6-public/log.c:213-233 | The exact condition for that, whatever is logged: no run overruns the array if and only if there are at most LOGSIZE buffers or the log area has fewer than LOGSIZE blocks |
| LogSizing.LogSoundIff | xv6-public/log.c:69-233 | The two together: no run overruns the array and every state recovers to the committed content if and only if there are no more buffers than blocks in the log area and no more than LOGSIZE; and the same for slots in the area, with fewer buffers than blocks |
| LogSizing.TooSmallStops | xv6-public/log.c:213-222 | A reachable state, for every log area of at most LOGSIZE blocks and a buffer for each of its slots: no operation has logged more than MAXOPBLOCKS blocks, one has reservation left, and log_write() panics for it |
| LogSizing.OverdraftStops | xv6-public/log.c:213-222 | A reachable state, for every larger log area and at least LOGSIZE buffers: one operation has logged MAXOPBLOCKS + 1 blocks, and log_write() panics for another that has reservation left |
| RedoLog.FillHead | xv6-public/log.c:101-113 | The loop over the header yields the encoding that read_head() decodes to the same list, and leaves the rest of the block alone |
| RedoLog.Log.constructor | xv6-public/log.c:54-66 | An empty log over a cache in which nothing is held |
| RedoLog.Log.BeginOp | xv6-public/log.c:125-141 | Admits an operation exactly when no commit runs and its reservation fits, and then all open reservations fit |
| RedoLog.Log.EndOp | xv6-public/log.c:145-174 | The last operation commits the whole transaction, an earlier one writes nothing; it fails only during a commit or for want of a buffer |
| RedoLog.Log.LogWrite | xv6-public/log.c:213-233 | Absorbs a block that is logged, appends one that is not, keeps the list free of duplicates, pins the buffer, and panics exactly when the log is full or no operation is open |
| RedoLog.Log.WriteLog | xv6-public/log.c:177-190 | The disk writes are the cached contents of the logged blocks into the slots, in order, up to the point where the cache runs out of buffers, if it does |
| RedoLog.Log.InstallTrans | xv6-public/log.c:69-82 | The disk writes are the slots to their home blocks, in order; the log area is left alone |
| RedoLog.Log.WriteHead | xv6-public/log.c:101-113 | One disk write, of the header block, whose decoding is the in-memory list |
| RedoLog.Log.ReadHead | xv6-public/log.c:85-96 | The in-memory list becomes the entries that the count on disk covers, none if it is negative; a count above LOGSIZE, which runs past the array, is an outcome of its own; the disk is untouched |
| RedoLog.Log.Commit | xv6-public/log.c:192-202 | The disk writes of commit() are exactly log copies, header, home blocks, empty header, or a prefix of that when the cache has no buffer left; an empty transaction writes nothing; every buffer it took is given back |
| RedoLog.Log.Recover | xv6-public/log.c:115-122 | The disk writes of recovery are exactly the home blocks of the header on disk and then the empty header, for a log area of any size; every buffer it took is given back |
| RedoLog.InstallsHome | xv6-public/log.c:69-82 | Installing from slots that hold the cached contents writes those contents home |
| CrashPoints.BeforeHeader | xv6-public/log.c:177-202 | A crash after any number of log copies leaves a disk that recovers to the old contents |
| CrashPoints.AfterHeader | xv6-public/log.c:192-202 | Right after the header write the disk recovers to the new contents, and the rest of commit() is the same writes as recovery |
| CrashPoints.RecoveryCrashPoint | xv6-public/log.c:69-122 | A crash after any number of recovery writes leaves a disk that recovers to the same contents, and a recovery that ends has put them in place |
| CrashPoints.CommitIsAtomic | xv6-public/log.c:69-202 | For every transaction, every crash point among the writes of commit(), and any number of further crashes at any points of recovery, a recovery that completes leaves every home block old if the header was not on disk, new if it was |
| BufferCache.PushLinks | xv6-public/bio.c:49-55 | Pushing behind the head keeps next and prev one circle through every element once |
| BufferCache.UnlinkLinks | xv6-public/bio.c:131-132 | Unlinking an element keeps the others one circle in both directions |
| BufferCache.ReplaceKeepsView | xv6-public/bio.c:61-93 | When replacing a buffer keeps "cached data if valid, else disk" for every block |
| BufferCache.Bcache.constructor | xv6-public/bio.c:38-56 | All buffers are on one circle, empty and free, with no user; the view is the disk |
| BufferCache.Bcache.FindCached | xv6-public/bio.c:69-76 | The buffer that holds the block, or none does |
| BufferCache.Bcache.FindRecyclable | xv6-public/bio.c:81-91 | The least recently used buffer that is neither in use nor dirty, or there is none |
| BufferCache.Bcache.Bget | xv6-public/bio.c:61-93 | At most one buffer per block: a hit counts one more user, a miss takes the least recently used free clean buffer, whose one user is the caller, a panic means there is none; refcnt is the number of users of every buffer; the view is unchanged |
| BufferCache.Bcache.Bread | xv6-public/bio.c:96-106 | A locked buffer with the content of the block, which the view does not notice |
| BufferCache.Bcache.Bwrite | xv6-public/bio.c:109-116 | The disk gets the data and the pin is gone; a buffer that is not locked is a panic |
| BufferCache.Bcache.Brelse | xv6-public/bio.c:120-141 | One user less; the last one moves the buffer to the front and all others keep their order |
| BufferCache.Bcache.ReadBlock | xv6-public/fs.c:31-38 | bread() and brelse() together: the content of the block; every buffer has as many users as before, and one that could be recycled still can |
| FileChain.BlocksDistinct | xv6-public/fs.c:55-98 | Ownership: index and data blocks of all files are pairwise distinct, outside the metadata and marked in the free map; no chain is cyclic and bmap is injective |
| FileChain.SetLink | xv6-public/fs.c:416-421 | Linking an empty index block behind the end of a chain moves no mapping of any file |
| FileChain.LinkWalk | xv6-public/fs.c:413-431 | After a link every walk over every chain is as before, but the one that now reaches the new block |
| DiskBytes.WordOfSet | xv6-public/mkfs.c:54-63 | A stored little-endian word reads back, and no other word changes |
| DiskBytes.MapOnBits | xv6-public/fs.c:65-73 | Setting a bit of the free map sets that bit and no other |
| DiskBytes.MapOffBits | xv6-public/fs.c:84-98 | Clearing a bit of the free map clears that bit and no other |
| FileSystem.ScanMapBlock | xv6-public/fs.c:65-76 | The first free block that one block of the free map shows, or none |
| FileSystem.FindFree | xv6-public/fs.c:55-80 | The first free block of the disk, or none is free |
| FileSystem.Position | xv6-public/fs.c:392-397 | Index block number and entry of a file block: quotient and remainder by 127 |
| FileSystem.FileSystem.Balloc | xv6-public/fs.c:55-80 | The first free block, zeroed and owned by its new use; no file is mapped differently; a panic means no block is free |
| FileSystem.FileSystem.HeadBlock | xv6-public/fs.c:399-411 | The head of the chain, allocated if it is missing, with every mapping as before |
| FileSystem.FileSystem.IndexBlock | xv6-public/fs.c:399-432 | The q-th index block, with the chain extended as needed, every mapping as before, and no change if it was there; how many blocks that takes and which are logged |
| FileSystem.FileSystem.Bmap | xv6-public/fs.c:380-440 | A mapped block is returned with no change at all; an unmapped one gets a fresh zeroed block and every other block of every file stays where it was; behind a mapped block, exactly how many blocks it takes, which it logs, and that a panic means there were fewer |
| FileSystem.FileSystem.Readi | xv6-public/fs.c:522-547 | Reading through the chain is slicing one flat byte sequence, for all offsets and counts with 32-bit wrap-around; nothing is allocated |
| FileSystem.FileSystem.WriteChunk | xv6-public/fs.c:569-576 | One block's worth of writei() splices its bytes in, keeps the file dense and all other files alone; what that takes and logs |
| FileSystem.FileSystem.Writei | xv6-public/fs.c:552-584 | Writing is overwriting and extending one flat byte sequence; the file stays dense, all other files keep their bytes; refused exactly past the end, on overflow or over the largest file; a panic exactly when fewer blocks are free than the write takes; which blocks it logs, for a piece of filewrite at most MAXOPBLOCKS if and only if it does not overdraw |
| FileSystem.FileSystem.Filewrite | xv6-public/file.c:118-156 | Pieces of three blocks, an operation each, make one write; it ends with -1 exactly past the end or over the largest file, after the last whole piece that fits, and keeps the pieces before; no piece logs more than MAXOPBLOCKS + 1 blocks |
| WriteBudget.TakenFree | xv6-public/fs.c:55-80 | balloc() takes no more blocks than were free, and all of them when none is left |
| WriteBudget.TallyNext | xv6-public/fs.c:569-576 | What the loop of writei() has taken and logged so far is a function of the disk before the call, block by block |
| LogBudget.CountIsBlocks | xv6-public/fs.c:55-98 | What is counted as logged is that many distinct block numbers: index and data blocks by their roles, blocks of the free map, and the block of the inode |
| LogBudget.PieceLogs | xv6-public/file.c:127-133 | A piece logs at most MAXOPBLOCKS distinct blocks, as the comment in filewrite says, if and only if it does not overdraw, and otherwise one more |
| LogBudget.EntryLogs | xv6-public/fs.c:625-653 | The write of a directory entry logs at most six blocks, so link() and create() of a file at most seven |
| LogBudget.EntryRewrites | xv6-public/sysfile.c:219-222 | The write with which unlink() clears an entry logs its block and nothing else |
| LogBudget.MkdirLogs | xv6-public/sysfile.c:242-284 | create() of a directory logs at most MAXOPBLOCKS + 1 distinct blocks |
| Overdraft.PieceOverdraws | xv6-public/file.c:127-133 | A valid disk, a file without holes and a piece of a write that overdraws |
| Overdraft.Overdraw | xv6-public/file.c:127-144 | Every piece that overdraws finds its blocks and is written, with MAXOPBLOCKS + 1 blocks in the log |
| Overdraft.LogTooMuch | xv6-public/file.c:127-144 | So writei() on that disk logs too much |
| FileSystem.FileSystem.Bfree | xv6-public/fs.c:84-98 | Exactly that bit is cleared; a panic exactly if it was clear |
| FileSystem.FileSystem.Itrunc | xv6-public/fs.c:475-506 | The file is empty, exactly its head index block is free again, ownership holds and all other files keep their bytes |
| FileUpdates.TruncLeaks | xv6-public/fs.c:481-502 | What itrunc() does not do: every data block of the file stays marked in the free map, and no file reaches it any more, as data or in a chain |
| FileUpdates.TruncLeaksIndex | xv6-public/fs.c:481-502 | The same for every index block behind the head |
| FileContents.SpliceTwice | xv6-public/fs.c:569-576 | Writing in two pieces is writing once |
| ImageBuilder.Image.constructor | xv6-public/mkfs.c:92-109 | An image of zeroes with empty files; the first block behind the metadata is next |
| ImageBuilder.Image.BlockFor | xv6-public/mkfs.c:269-307 | The block for file block bn: the one there is, or the next of the image with whatever index blocks it takes; nothing else moves |
| ImageBuilder.Image.Iappend | xv6-public/mkfs.c:254-323 | The file holds its old bytes and then the new ones, every other file its own; fails only when every block of the image is taken |
| ImageBuilder.MapBelow | xv6-public/mkfs.c:243-247 | The loop sets the bits of exactly the blocks below freeblock |
| ImageBuilder.Image.Balloc | xv6-public/mkfs.c:236-250 | The finished image is the file system that the kernel expects: the free map marks exactly the blocks below freeblock and ownership holds; fails exactly when one map block is too small |
| ImageBuilder.RootFixed | xv6-public/mkfs.c:158-163 | The rounded-up root directory has a block for each byte of its size if and only if its size was not a multiple of 512; then it reads as its entries and zeroes |
| ImageAgreement.RunCalls | xv6-public/mkfs.c:254-323 | After any sequence of appends to any inodes each file holds the bytes appended to it, in order |
| ImageAgreement.Build | xv6-public/mkfs.c:236-323 | The same after balloc(), with the ownership invariant of the kernel and the exact free map |
| ImageAgreement.ReadImage | xv6-public/fs.c:522-547 | readi() of the kernel on such an image returns the bytes of the file and changes neither disk nor inodes |
| ImageAgreement.ReadBack | xv6-public/mkfs.c:254-323 | The two walkers agree: what the kernel reads is what the builder appended, for every offset and count |
| LinkCounts.LinkKeeps | xv6-public/sysfile.c:119-165 | A name for a file in a linked directory keeps the counts and the shape of the directory graph |
| LinkCounts.LinkDirKeeps | xv6-public/sysfile.c:242-284 | So does a new directory, whose ".." counts for its parent |
| LinkCounts.UnlinkKeeps | xv6-public/sysfile.c:185-239 | So does taking away the name of a file |
| LinkCounts.UnlinkDirKeeps | xv6-public/sysfile.c:185-239 | So does taking away an empty directory |
| LinkCounts.EmptyDirLinks | xv6-public/sysfile.c:211-217 | An empty directory that has a name has one link and its parent at least two: the panic on a count below one cannot happen |
| LinkCounts.RootAlone | xv6-public/mkfs.c:115-126 | A root directory that is its own parent satisfies the invariant |
| Directories.Dirlookup | xv6-public/fs.c:597-622 | The first slot in use with the name, and so the inode that the name stands for, or there is none |
| Directories.FreeSlot | xv6-public/fs.c:639-645 | The first empty slot, or the end |
| Directories.IsDirEmpty | xv6-public/sysfile.c:169-181 | True exactly when no slot behind the first two is in use |
| DirectoryNames.PutLookup | xv6-public/fs.c:625-653 | An entry in the first empty slot gives its own name its inode and leaves what every other name stands for |
| DirectoryNames.ClearLookup | xv6-public/sysfile.c:218-220 | Clearing the slot of a name leaves what every other name stands for, and nothing for the name if it was there once |
| Directories.RunUnique | xv6-public/sysfile.c:119-284 | Over every run of create, link, unlink and freeing of inodes no directory has a name twice |
| Directories.Tree.Ialloc | xv6-public/fs.c:199-221 | The first inode that is not in use, or all are |
| Directories.Tree.Dirlink | xv6-public/fs.c:625-653 | The name goes into the first empty slot, unless it is there |
| Directories.Tree.Link | xv6-public/sysfile.c:119-165 | The name stands for the file, which has one link more, and every other name for what it did; when it refuses, exactly when, and that the count is back; after success the counts are right if and only if the directory is linked and the count fits a short |
| Directories.Tree.Create | xv6-public/sysfile.c:242-284 | A new inode of the kind asked for, with one link and, for a directory, its two dots; the name stands for it, and every other name for what it did; or the file that is there, or a refusal with no change; after success the counts are right if and only if the directory is linked and its count fits a short |
| Directories.Tree.Unlink | xv6-public/sysfile.c:185-239 | The name stands for nothing and every other name for what it did, with the invariant kept; refused exactly for the dots, a missing name and a directory that is not empty |
| Directories.Tree.Reclaim | xv6-public/fs.c:338-356 | An inode without links can be given up without any count becoming wrong |
| Directories.LinkDone | xv6-public/sysfile.c:119-165 | Exactly when link() keeps the invariant |
| Directories.CreateDone | xv6-public/sysfile.c:242-284 | Exactly when create() keeps the invariant |
| Directories.CreateUnrooted | xv6-public/sysfile.c:270-276 | A directory made in one that was removed gives that a link but no name |
| Directories.CreateMiscounts | xv6-public/sysfile.c:270-276 | and the ".." of the removed directory counts again, so a count is wrong |
| Directories.RunCounts | xv6-public/sysfile.c:119-284 | Over every run of create, link, unlink and freeing of inodes the invariant holds up to the first call on an unlinked directory or past the largest count, and fails right after it |
| LinkCountRuns.CreateInRemoved | xv6-public/sysfile.c:185-284 | A run from a new file system, for every kind of inode: mkdir, unlink, create in the removed directory; the counts are right up to the last call and wrong after it |
| LinkCountRuns.LinkPastTheLargest | xv6-public/sysfile.c:119-165 | A run from a new file system with 32767 links: the counts are right up to the 32767th name, and the 32768th makes one negative |
| Kalloc.Pages.Kfree | xv6-public/kalloc.c:59-76 | The page is junk and the first of the list, which visits every free page once |
| Kalloc.Pages.Kalloc | xv6-public/kalloc.c:82-94 | The first page of the list, or the list is empty |
| Kalloc.Pages.Kcount | xv6-public/kalloc.c:96-106 | The number of free pages |
| Kalloc.Pages.Freerange | xv6-public/kalloc.c:47-53 | Exactly the pages of the range become free |
| PageTables.AddTable | xv6-public/vm.c:35-57 | A zeroed page as a new table keeps every page owned by exactly one place, in both directions |
| PageTables.SetEntry | xv6-public/vm.c:83-103 | So does an entry for a page that was in nobody's table |
| PageTables.DropUser | xv6-public/vm.c:278-303 | So does clearing an entry and freeing its page |
| PageTables.Bury | xv6-public/vm.c:307-323 | So does taking down a directory without user pages |
| Vm.Walkpgdir | xv6-public/vm.c:35-57 | The table for an address, made if asked; no mapping changes; fails exactly without a table and without permission or memory to make one |
| Vm.MapPage | xv6-public/vm.c:83-103 | Exactly one virtual page changes, to that frame and permission; the panic comes exactly on a page that is present |
| Vm.Deallocuvm | xv6-public/vm.c:278-303 | The pages of the range are unmapped; exactly the frames that were mapped there become free and no other page changes its role; every other virtual page is as before |
| Vm.Freevm | xv6-public/vm.c:307-323 | Exactly the pages of the directory become free |
| Vm.RestoredIff | xv6-public/vm.c:242-272 | Clearing a range restores the address space if and only if none of it was mapped |
| Vm.Allocuvm | xv6-public/vm.c:242-272 | The range is mapped to new zeroed frames; on failure everything is as it was if and only if none of the range was mapped; two free pages for each page are enough |
| VmCopy.KmapMaps | xv6-public/vm.c:128-139 | kmap[] puts each physical page at its number above KERNBASE, to be written unless it holds the kernel's instructions, the devices where they are, and nothing anywhere else |
| VmCopy.Setupkvm | xv6-public/vm.c:143-161 | A directory that shows exactly kmap[], page by page; on failure every page is where it was; enough memory is a directory and its tables |
| VmCopy.Copyuvm | xv6-public/vm.c:340-371 | Every page below the size has the flags and the content of the original in another frame, the copy has the kernel's mappings and nothing else, the original is untouched; on failure every page is where it was; how much memory is enough |
| Umalloc.NoOverlap | xv6-public/umalloc.c:45-126 | No two blocks, free or live, overlap |
| Umalloc.FreeWorks | xv6-public/umalloc.c:45-70 | Freeing with joins on either side keeps the circle address-ordered without adjacent free blocks, and every unit from sbrk in exactly one block |
| Umalloc.TakeRing | xv6-public/umalloc.c:106-107 | Taking a whole block keeps the circle |
| Umalloc.SplitRing | xv6-public/umalloc.c:108-113 | Cutting off the tail of a block keeps the circle |
| Malloc.Heap.FindPlace | xv6-public/umalloc.c:51-53 | The walk ends, at the one place in the circle where the block belongs |
| Malloc.Heap.Free | xv6-public/umalloc.c:45-70 | The block is no longer live, its units are free, no unit of a live block changes, and no unit is lost |
| Malloc.Heap.Morecore | xv6-public/umalloc.c:73-87 | All units from sbrk become free units; sbrk fails, and in one case has unmapped the process; or sbrk returns without memory, exactly when its argument, the product as an int, is not positive |
| Malloc.Heap.Search | xv6-public/umalloc.c:102-124 | The scan ends; sbrk is asked at most once and only if no free block is large enough; the outcome in each case |
| Malloc.Heap.Malloc | xv6-public/umalloc.c:90-126 | A new live block, all of it memory of the process, which touches no live block and has room for the bytes if and only if nbytes is at most 2^31 - 16; none exactly when no free block is large enough and sbrk fails, with all memory gone exactly when the argument was -sz; for every larger nbytes up to 2^32 - 8, exactly when sbrk returns, it has given nothing for the block |
| Malloc.UnitsSuffice | xv6-public/umalloc.c:95 | The units cover the bytes if and only if nbytes is at most 2^32 - 8 |
| Malloc.UnitsOverflow | xv6-public/umalloc.c:95 | The last seven sizes overflow at once: one unit, with no room |
| Malloc.ArgumentFits | xv6-public/umalloc.c:78-80 | sbrk is asked for memory, and for the whole block, if and only if nbytes is at most 2^31 - 16 or overflows at once |
| Malloc.TooLarge | xv6-public/umalloc.c:80 | Two inputs: 2^32 - 8 bytes ask sbrk for 0 bytes, which succeeds; 2^32 - 16 bytes give 8 bytes back |
| ProcessSize.SbrkGives | xv6-public/proc.c:159-199 | A call of sbrk that returns has given memory, n bytes from the old break on, if and only if n is positive; with any other n the process is not larger than before; a call that fails changes nothing, except that sbrk(-sz) outside a thread has unmapped every page |
| Semaphore.StepKeepsInv | xv6-public/thread_lock_impl.h:102-124 | Every step of every thread keeps the invariant of mutexes, counts and sleepers |
| Semaphore.CountConserved | xv6-public/thread_lock_impl.h:102-124 | In every kill-free run the count is initial value plus posts minus completed waits, and not negative |
| Semaphore.MutualExclusion | xv6-public/thread_lock_impl.h:47-64 | No two threads hold the mutex of a semaphore |
| Semaphore.NoLostWakeup | xv6-public/proc.c:766-802 | A thread asleep on a semaphore with a positive count implies a poster that has yet to call wakeup |
| SemaphoreKills.RunAlive | xv6-public/proc.c:504-523 | In every run in which any threads are killed anywhere, mutual exclusion and the accounting of the count hold |
| SemaphoreKills.WokenIff | xv6-public/thread_lock_impl.h:118-124 | A step keeps every sleeper on a positive count sure of its wakeup if and only if it is not the death of the only poster that has yet to signal, while a thread sleeps and the count is positive; a kill of a sleeper is a wakeup |
| SemaphoreKills.RunWoken | xv6-public/proc.c:766-802 | In every run, kills included, no wakeup is lost up to the first such death, and one is lost right after it |
| SemaphoreKills.DeadHolder | xv6-public/thread_lock_impl.h:47-64 | A thread that died between lock and unlock keeps the mutex, and the count never changes again |
| SemaphoreKills.DeadPosterLosesWakeup | xv6-public/thread_lock_impl.h:118-124 | A reachable state: the count is 1, a thread sleeps and nobody is about to wake it |
| BoundedBuffer.StepKeepsInv | xv6-public/extracredit_semaphore.c:20-78 | Every step of any number of producers and consumers keeps the accounting of places and items |
| BoundedBuffer.RoomAtAccess | xv6-public/extracredit_semaphore.c:20-42 | Whoever is at the buffer finds room or an item |
| BoundedBuffer.BufferSafe | xv6-public/extracredit_semaphore.c:20-78 | The index stays within 0 and N, neither the overflow nor the underflow branch is reached, and what was put in is what was taken out and what is in the buffer |
| BoundedBuffer.CountsBounded | xv6-public/extracredit_semaphore.c:80-101 | The two counts are not negative and together at most N |
| BufferTotals.StepKeepsTotals | xv6-public/extracredit_semaphore.c:45-78 | The i-th turn of a producer inserts i, and each turn of a consumer removes one item |
| BufferTotals.AllDone | xv6-public/extracredit_semaphore.c:45-78 | When all threads have exited: each producer has inserted 1 to N once and nothing else, each consumer has removed N items, what is left in the buffer is the difference, and nothing if there are as many of one kind as of the other |
| Scheduler.StepKeeps | xv6-public/proc.c:347-406 | Every step of any number of CPUs keeps the invariant of table, lock and stacks |
| Scheduler.RunsOnce | xv6-public/proc.c:347-380 | No process executes on two CPUs, and a RUNNING process belongs to exactly one |
| Scheduler.ExecutesOnStack | xv6-public/proc.c:75-117 | A CPU executes on a kernel stack that no other process has |
| Scheduler.ReapsNoStackInUse | xv6-public/proc.c:296-336 | A kernel stack is taken away only from an embryo or a zombie being reaped, and never while a CPU is on it |
| Scheduler.ZombieNeverRuns | xv6-public/proc.c:251-291 | A zombie stays one until it is reaped, and is executed only by the CPU that is leaving it with ptable.lock held |
| Scheduler.SchedNeverPanics | xv6-public/proc.c:390-406 | Whoever switches holds the lock and is not RUNNING, and nobody comes back from exit: two of the four panics of sched() and the one of exit() |
| Turns.NeverStuck | xv6-public/proc.c:251-406 | In every run each CPU can take a step unless another one holds ptable.lock |
| Turns.LockReleased | xv6-public/proc.c:251-460 | In every run a CPU that holds ptable.lock takes a number of steps with it that is bounded by the size of the table |
| Turns.EveryTurn | xv6-public/proc.c:347-380 | In every run: when the scheduler is through with the table it has looked at every slot, once and in order |
| Turns.TurnRuns | xv6-public/proc.c:358-374 | It goes past a process only if that is not RUNNABLE, and executes the one that it looked at last |
| Families.ExitHandsOver | xv6-public/proc.c:271-287 | After exit() nobody has the process as parent, its children have init, and everybody else the parent they had |
| Families.HasLiveParent | xv6-public/proc.c:204-336 | In every run each process but init has a parent from its start until it is reaped, another process that is alive |
| Families.WaitsForReason | xv6-public/proc.c:296-336 | In every run: who sleeps in wait() or thread_join() was not killed and has a child of the kind, none of which is a ZOMBIE; it sleeps on its own channel |
| Families.WaitFails | xv6-public/proc.c:296-336 | wait() or thread_join() returns -1 only to a process that was killed or has no child of the kind |
| Wakeups.RunChans | xv6-public/proc.c:442-475 | In every state of every run p->chan is set exactly while the process is in sleep(), to what it sleeps on, only such a process is SLEEPING, and a slot that is not in use has no stack and no parent |
| Wakeups.StepAsleep | xv6-public/proc.c:482-524 | A step wakes a sleeping process if and only if it is a wakeup() of its channel, a kill() of it, or the exit() of a child, or of a parent that leaves init a zombie |
| Wakeups.SleepReturns | xv6-public/proc.c:442-475 | In every run sleep() returns only after such a step |
| Wakeups.WakesAll | xv6-public/proc.c:482-498 | After wakeup() nobody sleeps on the channel, and everybody else sleeps on |
| Wakeups.KilledIff | xv6-public/proc.c:504-523 | In every run a process is marked as killed if and only if kill() has named its slot since the slot was last freed |
| Wakeups.ThreadIff | xv6-public/proc.c:639-640 | In every run a process is marked as a thread if and only if there ever was a thread in its slot |
| Wakeups.ForkedIsChild | xv6-public/proc.c:296-310 | wait() takes what fork() has made for a child if and only if no thread was ever in the slot |
| LostChild.WaitMisses | xv6-public/proc.c:650-680 | A run in which a process joins a thread, forks, is not killed, and wait() returns -1 while the child is there |
| Pipe.Wrapping | xv6-public/pipe.c:13-20 | The wrapped 32-bit counters compare, index and step as the byte counts do |
| Pipe.FirstInFirstOut | xv6-public/pipe.c:78-121 | In every run, over all calls, the bytes read are a prefix of the bytes written and at most PIPESIZE are pending |
| Pipe.SleepersIff | xv6-public/pipe.c:78-121 | A step keeps sleepers right if and only if it is not a writer that gives up on a full pipe while a reader sleeps |
| Pipe.RunSleepers | xv6-public/pipe.c:59-121 | In every run sleepers are right up to the first such step and wrong right after it |
| Pipe.NoLostWakeup | xv6-public/pipe.c:59-121 | In every run, kills and closes included, in which no writer has given up on a full pipe while a reader slept: with the lock free, a sleeping reader implies an empty pipe and a sleeping writer a full one, each with the other end open |
| Pipe.KillFree | xv6-public/pipe.c:85-89 | A run in which nobody was killed has no such step |
| Pipe.KilledWriterLosesWakeup | xv6-public/pipe.c:85-89 | A reachable state in which a writer was killed: the reader sleeps on a full pipe |
| PipeCalls.WriteReturns | xv6-public/pipe.c:78-97 | In every run a call of pipewrite() has added a prefix of the caller's bytes, in order, and all of them if and only if it did not fail |
| PipeCalls.ReadReturns | xv6-public/pipe.c:100-121 | In every run a call of piperead() gives its caller the next n bytes of what was written, or all there were, and none of n bytes only when no writer is left |
| PipeCalls.CallFails | xv6-public/pipe.c:85-111 | A read fails only for a process that was killed, on an empty pipe with a writer; a write only on a full pipe, for a process that was killed or has no reader |
| PipeCalls.HolderGoesOn | xv6-public/pipe.c:78-121 | In every run a process with the lock of the pipe can go on, and each of its steps brings it nearer to the release |
| PipeCalls.ClosedForGood | xv6-public/pipe.c:59-76 | In every run nothing is written after the write end was closed, and nothing read after the read end was |
| ShellRoundTrip.LineParses | xv6-public/sh.c:345-446 | The rendering of any tree, up to a stop, parses to that tree |
| ShellRoundTrip.RoundTrip | xv6-public/sh.c:328-342 | parsecmd() of the fully parenthesised rendering of any tree with plain words and at most nine arguments per command gives that tree |
| ShellSound.Accepts | xv6-public/sh.c:328-446 | parsecmd() takes every line of the grammar, whatever its white space, and builds its tree: pipelines and lists to the right, all arguments inside all redirections, the first innermost, one background node for each & |
| ShellSound.AcceptsOnly | xv6-public/sh.c:328-446 | What parsecmd() takes is a line of the grammar, and the tree is that of the line |
| ShellSound.Language | xv6-public/sh.c:328-446 | parsecmd() takes a string if and only if it is a line of the grammar |
| ShellText.TextToks | xv6-public/sh.c:266-308 | gettoken() finds the tokens of any text made of words, symbols and >> with blanks between them |
| ShellText.LineRoundTrip | xv6-public/sh.c:328-446 | Any line of the grammar, written without parentheses of its own, with redirections among and behind the arguments, parses to its tree |
| Shell.Gettoken | xv6-public/sh.c:266-308 | The loops find the next token: the symbol or the maximal word behind white space |
| Shell.Peek | xv6-public/sh.c:311-320 | The cursor past white space, and whether one of the characters is there |
| Shell.Parseredirs | xv6-public/sh.c:375-397 | The loop over redirections is the grammar function, ends on every string, and adds maximal words of the line only |
| Shell.Parseexec | xv6-public/sh.c:416-446 | The parser of commands and blocks is the grammar function, with the limit on arguments; its strings are maximal words of the line |
| Shell.Parsepipe | xv6-public/sh.c:362-372 | The parser of pipelines is the grammar function, with the same of its strings |
| Shell.Parseline | xv6-public/sh.c:345-359 | The parser of lines is the grammar function, with the same of its strings |
| Shell.LineSpans | xv6-public/sh.c:345-446 | Every argument and file name that the parser finds is a maximal word of the line |
| Shell.Nulterminate | xv6-public/sh.c:450-493 | NULs go behind every string of the command and nowhere else |
| Shell.TokensSurvive | xv6-public/sh.c:450-493 | No NUL lands inside a token: every string ends up as its token |
| Shell.Parsecmd | xv6-public/sh.c:328-342 | After parsing and termination in place every argument and file string equals its token, for every line; a syntax error leaves the buffer alone |
| Grep.FirstPart | xv6-public/grep.c:85-106 | A first part of a pattern takes a prefix of the text and leaves the rest to the others |
| Grep.MatchHere | xv6-public/grep.c:85-96 | True exactly when the parts of the pattern match at the start of the text |
| Grep.MatchStar | xv6-public/grep.c:99-106 | True exactly when some number of the starred character and then the rest matches |
| Grep.Match | xv6-public/grep.c:72-82 | True exactly when the text has a match of the pattern, for all patterns and texts |

## Left out

- Device, boot and interrupt code, the console, printf and the small user programs; the disk is an array of blocks with atomic synchronous writes, as in memide.c.
- x86 memory ordering and inline assembly: xchg, lock acquisition and release are atomic steps.
- Full reclamation by itrunc: the code does not do it, and `FileUpdates.TruncLeaks` says so.
- That the cache never runs out of buffers: NBUF equals LOGSIZE, so it can; it is an outcome of every operation that reads a block.
- That clients log or write what they changed before they release it, and that one process does not ask for a buffer it holds, are assumptions of the log model.
- What the memory behind log.lh.block holds, and so what happens after a store past its end.
- When create() of a directory reaches its bound of MAXOPBLOCKS + 1 logged blocks, and the blocks that the last iput, open with truncation and exec log.
- RedoLog.Log.Recover: recovery is stated for headers that write_head wrote; what a count above LOGSIZE does to the memory behind the array is not modelled, `RedoLog.Log.ReadHead` stops there.
- The inode blocks on disk: the files of `FileSystem` and `ImageBuilder` have their inodes in a map, so iupdate, rinode, winode and the type and nlink that the builder's ialloc writes are not modelled. The link-count model keeps directories as sequences of slots; that these are the bytes of a file is not modelled.
- The inode cache: iget, idup, ilock and the reference counts that decide when iput frees; `Directories.Tree.Reclaim` is the free itself.
- Path walking (namex, skipelem), argument fetching and file descriptors: link, create and unlink get the directory that nameiparent found, and names are already cut to DIRSIZ.
- Device files in readi and writei, which go to the device switch; major and minor numbers.
- Files with holes in readi and writei: the contracts are for files in which every block below the size is mapped, which writei and the builder keep.
- FileSystem.FileSystem.Itrunc: states which blocks become free, not that all blocks of the file do.
- Kills in the model of the bounded buffer, and the wrap-around of a semaphore's count past 32 bits; `BoundedBuffer.CountsBounded` shows that the client stays far from it.
- Condition variables outside semaphores, the spin locks of threads, and extracredit_cond_var.c, which spins while it holds its mutex.
- The test of `killed` and the sleep of a pipe call are one step, which may also be taken by a process that is killed already: its kill came between the two. That kill() finds it awake and does not wake it is so in proc.c too.
- pipealloc and the last close that frees a pipe; a pipe end is closed only when no process is inside a call on it, which the reference counts of file.c give.
- Page directories shared by threads, user memory during fork, and process numbers; the model of proc.c has states, parents, channels, locks, CPUs and stacks.
- That a process which can take a step takes one in the end: `Turns.NeverStuck` and `Turns.LockReleased` say that it can and that nobody keeps it from doing so by holding ptable.lock.
- The memory map of one directory per process only; countpages, countkvm, countuvm, loaduvm, inituvm, clearpteu and copyout.
- Malloc.Heap.Malloc: the break is at a unit when it is called, so that blocks lie at units. The header of a block is in a map from unit addresses; payload bytes are not modelled. Where sbrk returns without memory the model stops before the header is written at the old break, which traps or not depending on the page there.
- ProcessSize.SbrkGives: whether allocuvm finds memory is a parameter, and the sizes that growproc copies to other threads are not modelled.
- Kalloc.Pages.Kfree: pages are numbers and a page is one of the memory, so the panic on an address that is not aligned or out of range has no counterpart.
- Scheduler.SchedNeverPanics: the panics on the number of held locks and on enabled interrupts are not modelled.
- runcmd and getcmd of the shell; the line buffering of grep.
- System call dispatch, traps, stat and the other plumbing.
