# xv6: verified models of the storage stack, the heap, processes, pipes, page tables and the shell parser

This project models the parts of the xv6 kernel (and of two of its user programs) whose correctness is
decided by code rather than by hardware, and proves what they are for. Each C file that works by changing
things step by step is a class or a set of methods with the same loops, proved against functions on values;
the theorems are about those functions and about whole runs.

- `Blocks`, `LogSpec`, `Journal`, `Log`, `LogGroup` (`log.c`): the redo log, its crash atomicity, recovery, sequences of
  accesses to blocks, and group commit.
- `Bio` (`bio.c`, `memide.c`): the buffer cache, one logical block map over cache and disk.
- `FsLayout`, `FsState`, `FsFile`, `FsCount`, `FsTrunc`, `Fs` (`fs.c`): free map, inodes, file contents as byte
  sequences, and what a write costs in blocks.
- `File`, `ChunkWorst` (`file.c`): filewrite's chunks against the log reservation, fileread, and a disk on which a chunk
  uses its reservation up.
- `MkfsSpec`, `Mkfs` (`mkfs.c`): the image that file systems start from.
- `Crash` (`file.c`, `fs.c`, `log.c`): files across a crash, the file system over the log.
- `DiskFormat` (`fs.h`): a reader of the disk by numbers of blocks and bytes, against which the layers above are held.
- `Boot` (`mkfs.c`, `proc.c`): from the host's files to a running file system.
- `HeapSpec`, `Umalloc` (`umalloc.c`): the allocator of Kernighan and Ritchie, section 8.7.
- `Proc`, `ProcLife`, `ProcTable`, `Scheduler` (`proc.c`): process table, exit and wait, sleep and wakeup, what can
  happen to a process from one step to the next, the scheduler's choice.
- `Pipe`, `PipeSync`, `PipeCalls` (`pipe.c`): the ring buffer with wrapping counters, sleeping readers and writers, and
  what one call sends or receives in the middle of all the others.
- `Vm` (`vm.c`, `kalloc.c`): two-level page tables over the page allocator.
- `Shell`, `ShellParser` (`sh.c`): the command parser and its in-place NUL termination. `ShellMap`, `ShellAppend`,
  `ShellBlank`: changes of a line that do not change the command. `ShellShow`, `ShellItems`: commands written with as few
  parentheses as the grammar allows, and with their redirections anywhere.
- `Collections`: a few shared facts about sequences and sets.

## How the parts are modelled

**Storage.** A disk block write is one atomic step, as in `memide.c`; a crash may fall between any two writes.
`LogSpec` describes commit and recovery by the list of every disk they pass through, `Log` is the code over the
buffer cache, whose ghost `trace` records every disk content, and `Log.Commit` is proved to pass through exactly
that list. LOGSIZE and the size of the log on disk are separate: mkfs makes them equal, and `LogGroup` shows what
that costs (see below). Buffers start with the key (0,0), so uniqueness of keys is stated for assigned buffers.
The file-system layers work on one block map, which is what bread and log_write give them; each operation records its
breads and log_writes in order, and the set of the blocks it logs. `Crash` puts the two together: the recorded accesses
go through the log and the buffer cache one by one, see there what they saw in the block map, and are committed; every
disk on the way is decoded as a file system. A block that is read and then changed counts as two accesses. Healthy
states start from mkfs's images, which `Mkfs` builds and on which `Boot` starts the kernel.

**Independent readers.** Where a format is fixed by numbers, the theorems are also stated with these numbers and without
the functions that write it: `DiskFormat` finds files, free map and log by offsets (`fs.h`), `MkfsSpec.Lists` reads the
directory entries of the root, `Vm` has the walk that the processor makes through directory and table, and `ShellBlank`
speaks of the characters themselves.

**Concurrency.** `LogGroup`, `PipeSync` and `Proc` are step machines over any number of processes (and CPUs). A
step is a stretch between two points where another process may act. Locks are atomic; in `Proc` the lock passes
between the scheduler and the process across swtch, and fork's writes made without the lock are steps of
their own. nextpid is unbounded. A process in `PipeSync` has the caller's buffer, which piperead fills, and the result it
returns; what a call has sent or received is observed from outside, by what enters and leaves the ring while that
process has the lock.

**Numbers.** Pipe counters wrap at 2^32, file offsets and sizes are 32-bit with the source's overflow checks;
elsewhere integers are unbounded. umalloc addresses are counted in header units, vm addresses in pages.

## Findings

Some statements one would expect hold only under a condition. The model keeps the code as it is and gives the exact
condition.

- log_write reads the list length before it takes the lock and tests it against LOGSIZE and `log.size - 1`, and it does
  so even for a block that is on the list already. With two or more processes, an operation that has not listed its
  MAXOPBLOCKS blocks yet never meets the panic if and only if the log on disk has more than LOGSIZE blocks
  (`ReservationsHonoured`); one that has may write a listed block again and meets the panic at every log size
  (`EveryWriteHonoured`). The list never outgrows the log area if and only if the log has more than LOGSIZE
  blocks (`LogAreaSuffices`). mkfs makes it exactly LOGSIZE.
- The killed return of pipewrite skips the readers' wakeup. A step keeps the promise to sleepers if and only if it is
  not such a return from a full pipe while a reader sleeps (`StepKeepsExactly`, `KilledReturnLosesWakeup`).
- mkfs rounds the size of the root directory up past its blocks: the image it makes is healthy if and only if the
  number of files plus two is not a multiple of 32; otherwise the root directory has a hole (`MakeImage`,
  `HoledImage`).
- A filewrite that would end beyond the largest file size returns -1 and still leaves the whole chunks that fitted;
  there are any if and only if one chunk fits (`Filewrite`, `PartLeft`).
- `>>` opens its file exactly as `>` does: in every line, a lone `>` and a `>>` in its place give the same command, open mode
  included, or the same panic (`ShellAppend.AppendIsOutput`).

## Model

| member | source | states |
|---|---|---|
| `LogSpec.PutHeadReadsBack` | Xv6/log.c:101-113 | Whatever the header block held, after write_head it reads back as the list that was written. |
| `LogSpec.InstallIdempotent` | Xv6/log.c:69-82 | Installing again from any partly installed disk gives the same disk as installing once. |
| `LogSpec.InstallDelivers` | Xv6/log.c:69-82 | With distinct blocks, each logged copy arrives at its home. |
| `LogSpec.RecoveryDiskOk` | Xv6/log.c:115-122 | A crash after any write of recovery, followed by a new recovery, gives the home blocks of the undisturbed one. |
| `LogSpec.CrashesDuringRecovery` | Xv6/log.c:115-122 | The same for any number of boots that crash inside recovery. |
| `LogSpec.CommitDiskOk` | Xv6/log.c:177-202 | Each disk that commit passes through recovers to the old home blocks before the header write and to the new ones from it on. |
| `LogSpec.CommitIsAtomic` | Xv6/log.c:192-202 | Cut commit after any write, crash any number of times during recovery: the home blocks are all old or all new, decided by the header write. |
| `LogSpec.CommitCompletes` | Xv6/log.c:192-202 | A completed commit leaves an empty log and every listed block updated, no other home block changed. |
| `LogSpec.CommitAllOrNothing` | Xv6/log.c:192-202 | Every disk of a commit has a valid header, and after any number of crashing boots recovers to exactly the old home blocks up to the header write and to exactly the new ones from it on. |
| `LogSpec.CommitBetween` | Xv6/log.c:192-202 | Not yet recovered, after any number of crashing boots, every home block on the disk is the old one or the new one; so what the transaction leaves alone can be read before recovery, as initlog reads the super block. |
| `Journal.FewHaveRoom` | Xv6/log.c:213-228 | If an operation logs fewer blocks than the limit before its last access, no log_write of it finds the limit reached, writes of listed blocks included. |
| `Journal.SameHomeAfter` | Xv6/log.c:204-233 | Accesses outside the log area, run on two block maps that agree there, leave them in agreement and see the same blocks. |
| `Bio.Binit` | Xv6/bio.c:38-56 | All buffers are linked, in descending order from the head, unassigned and idle. |
| `Bio.RelinkOk` | Xv6/bio.c:120-141 | Unlinking a buffer anywhere on the ring and pushing it behind the head keeps next and prev a ring of all buffers, with that buffer in front and the others in their order. |
| `Bio.OneBufferPerBlock` | Xv6/bio.c:61-93 | Two assigned buffers with the same key are the same buffer. |
| `Bio.CoherentMiss` | Xv6/bio.c:61-106 | Recycling a clean idle buffer loses nothing: the disk has its old contents and the logical contents of the new block. |
| `Bio.CoherentRelease` | Xv6/bio.c:120-141 | Giving back a buffer that is pinned or unchanged keeps cache and disk one logical map. |
| `Bio.Bcache.Lookup` | Xv6/bio.c:68-76 | The walk from the front finds the block's buffer, or there is none. |
| `Bio.Bcache.Victim` | Xv6/bio.c:78-92 | The walk from the back finds an unheld, unpinned buffer with none such behind it; none is found exactly if there is none. |
| `Bio.Bcache.Bget` | Xv6/bio.c:61-93 | Hit: one more reference on the cached buffer. Miss: the least recently used evictable buffer is reassigned. Panic exactly when the block is not cached and nothing is evictable. |
| `Bio.Bcache.Bread` | Xv6/bio.c:96-106 | The locked buffer shows the block's last logical contents, whatever was evicted in between; the disk is not written. |
| `Bio.Bcache.Bwrite` | Xv6/bio.c:109-116 | One disk write of exactly this block; the buffer is clean; the logical map does not change. |
| `Bio.Bcache.Brelse` | Xv6/bio.c:120-141 | The reference and lock go; with the last reference the buffer is the one right behind the head, the most recently used, and the rest keep their order. |
| `Bio.Bcache.constructor` | Xv6/bio.c:38-56 | A fresh cache shows the disk image. |
| `Log.Log.WriteLog` | Xv6/log.c:177-190 | One disk write per listed block, in order, copies the cached logical contents into the log area; pins stay. |
| `Log.Log.InstallTrans` | Xv6/log.c:69-82 | One disk write per listed block, in order, from the log to its home; afterwards nothing is pinned. |
| `Log.Log.WriteHeader` | Xv6/log.c:101-113 | One disk write of the header with count and list, the rest of the block as it was. |
| `Log.Log.ReadHead` | Xv6/log.c:85-96 | The in-memory list becomes the list in the header on disk. |
| `Log.Log.Commit` | Xv6/log.c:192-202 | The disk passes through exactly the writes of commit; up to the header write none changes a home block, and each is safe to stop on; afterwards disk and logical map agree and the logical map is unchanged. |
| `Log.Log.RecoverFromLog` | Xv6/log.c:115-122 | The disk passes through exactly the writes of recovery and ends recovered, with an empty log. |
| `Log.Log.Readsb` | Xv6/fs.c:31-39 | The super block as the cache shows it. |
| `Log.PowerUp` | Xv6/bio.c:38-56 | A machine just switched on: an empty cache over the disk, no buffer held. |
| `Log.Log.Initlog` | Xv6/log.c:53-66 | Place and size come from the super block; then recovery. |
| `Log.Log.FindListed` | Xv6/log.c:224-227 | The absorption loop finds the block on the list or its end. |
| `Log.Log.LogWrite` | Xv6/log.c:213-233 | Succeeds exactly under the two guards; lists the block once, pins its buffer, and writes no disk block. |
| `Log.Log.Look` | Xv6/bio.c:96-106 | bread, use, brelse between transactions or in one: the last contents put, and no disk write. |
| `Log.Log.Put` | Xv6/log.c:204-233 | bread, change, log_write, brelse: the block map changes at that block, the disk not at all; succeeds exactly under the guards. |
| `Log.Log.Perform` | Xv6/log.c:204-233 | Any sequence of these: every read sees the last value put, each block is listed once, the disk is not written; fails exactly when some put finds the list full. |
| `Log.Log.Transaction` | Xv6/log.c:204-233 | Any such sequence and its commit: until the header write no home block on disk changes and a crash recovers to the old ones, from it on to the new ones, which the disk has in the end. |
| `LogGroup.StepKeeps` | Xv6/log.c:125-174 | Every step of begin_op, log_write and end_op keeps the counters, the list and the reservations consistent. |
| `LogGroup.GroupCommit` | Xv6/log.c:125-174 | In every run: a commit excludes operations, the list has no duplicates and fits with all unused reservations in LOGSIZE, and who sleeps in begin_op has someone left to wake it. |
| `LogGroup.Committed` | Xv6/log.c:149-233 | In every run, what an operation has recorded is still listed when the next commit begins: no step of the others takes a block off the list. |
| `LogGroup.StaysListed` | Xv6/log.c:149-233 | A listed block leaves the list only in a commit that had it on its list. |
| `LogGroup.GuardBetween` | Xv6/log.c:213-233 | Between two blocks that one process records, absorbed or appended, it has passed the guard again. |
| `LogGroup.ReservationsHonoured` | Xv6/log.c:213-219 | An operation that has listed fewer than MAXOPBLOCKS blocks never meets "too big a transaction", in all runs of n processes, if and only if n is 0 or the log is larger than n of them can fill (MAXOPBLOCKS for one, LOGSIZE for more). |
| `LogGroup.EveryWriteHonoured` | Xv6/log.c:213-228 | No write that an operation is entitled to, writes of listed blocks included, is stopped in all runs of n processes if and only if there is none, or only one and the log has more than MAXOPBLOCKS + 1 blocks. |
| `LogGroup.LogAreaSuffices` | Xv6/log.c:213-233 | The list never outgrows the log area, in all runs of n processes, if and only if the log has more than LOGSIZE blocks, or none but the header, or there is at most one process; otherwise two guards can pass before either append. |
| `FsLayout.SetBitIn` | Xv6/fs.c:66-68 | Setting a bit of a bitmap block changes that bit only. |
| `FsLayout.ClearBitIn` | Xv6/fs.c:89-93 | Clearing a bit of a bitmap block changes that bit only. |
| `FsLayout.DecodeEncode` | Xv6/fs.c:221-237 | An inode read back by ilock is the inode that iupdate stored. |
| `FsLayout.PutSlot` | Xv6/fs.c:221-237 | iupdate's store changes its slot of the inode block and none of the other seven. |
| `DiskFormat.FileRead` | Xv6/fs.h:45-59 | In every healthy file system, a reader that knows the 64-byte inodes, their offsets, the twelve direct addresses and the block of the others finds the type, the device numbers, the links, the size and every byte of each file. |
| `DiskFormat.MapRead` | Xv6/fs.h:61-65 | The bits of the free map, by block, byte and power of two, are the metadata blocks and the data blocks that some address names. |
| `DiskFormat.NoBlockShared` | Xv6/fs.c:373-401 | Of files that reach so far, different blocks are different on disk, and all of them are marked in use. |
| `DiskFormat.LogRead` | Xv6/log.c:101-113 | The log after the header write, by offsets: the number of blocks, their numbers in order, and in the blocks behind it their contents. |
| `FsState.OwnedMeans` | Xv6/fs.c:373-436 | Over all inodes, direct, indirect and entry addresses do not repeat and are exactly the data blocks marked in the free map; metadata blocks are marked. |
| `FsState.AllocatedOwned` | Xv6/fs.c:56-78 | Marking and zeroing a free block keeps ownership and every file. |
| `FsState.WithEntryOwned` | Xv6/fs.c:386-397 | A fresh block stored in an indirect block keeps ownership and every file. |
| `FsState.PutDataOwned` | Xv6/fs.c:499-505 | Writing a mapped block changes that block of that file and nothing else. |
| `FsState.FreedOwned` | Xv6/fs.c:81-96 | Unmarking a block that no inode holds keeps ownership and every file, and the block was marked. |
| `FsFile.WroteContent` | Xv6/fs.c:482-512 | Bytes written across blocks, with the new size, are a splice of the flat content. |
| `FsFile.SliceOfBlock` | Xv6/fs.c:470-475 | A slice of the content inside one block is that slice of the mapped block. |
| `FsCount.FirstFree` | Xv6/fs.c:62-77 | The first unmarked block is a data block that nobody owns, and all data blocks before it are owned. |
| `FsCount.EntryIsOneMap` | Xv6/fs.c:386-397 | Mapping a block through the indirect block allocates what was missing, lowest blocks first, and moves no other address. |
| `FsCount.RangeStep` | Xv6/fs.c:499-505 | Block by block, a range of a file is mapped at the cost of its holes and of the indirect block if that is new. |
| `FsCount.RangeJoin` | Xv6/file.c:135-154 | Two writes in a row cost what one write of both would, even if they share a block. |
| `FsTrunc.EntryLoose` | Xv6/fs.c:422-432 | Every entry of the indirect block belongs to that file alone and appears once. |
| `FsTrunc.GoneCount` | Xv6/fs.c:408-436 | The freed blocks have at most as many bitmap blocks as the disk has. |
| `Fs.RefusedMeans` | Xv6/fs.c:494-497 | The 32-bit range checks of writei pass exactly for writes that start inside the file and end inside its largest size. |
| `Fs.WriteBeyond` | Xv6/fs.c:507-511 | When the file grew, iupdate stores every address that bmap added, and no file has a hole. |
| `Fs.WriteInside` | Xv6/fs.c:499-511 | When the file did not grow, bmap added no address, so no iupdate is missing. |
| `Fs.InsideCostsNothing` | Xv6/fs.c:499-511 | A write that stays inside a file needs no new block. |
| `Fs.InsideGoes` | Xv6/fs.c:482-512 | So a write that stays inside a file always goes through, on a full disk too. |
| `Fs.FileSystem.FindFree` | Xv6/fs.c:62-77 | The first unmarked block, or none exists. |
| `Fs.FileSystem.Balloc` | Xv6/fs.c:56-78 | The first free block, marked and zeroed: never 0, never metadata, never in use. Panics exactly when all blocks are marked. |
| `Fs.FileSystem.Bfree` | Xv6/fs.c:81-96 | Unmarks the block; the panic "freeing free block" exactly if it was not marked. |
| `Fs.FileSystem.Bmap` | Xv6/fs.c:373-401 | The block's address, mapped if it was not; addresses once set stay, all files read the same, ownership holds. Out of range exactly from MAXFILE on; otherwise panics exactly if fewer blocks are free than it has to allocate. |
| `Fs.FileSystem.Iupdate` | Xv6/fs.c:221-237 | The inode block holds the in-memory inode; other inodes, addresses and files are as before. |
| `Fs.FileSystem.Writei` | Xv6/fs.c:482-512 | Device, refusal, or: it goes through exactly if there are free blocks for the holes it fills; then the content is spliced, every other file and inode unchanged, no holes, every inode on disk up to date, only the written range newly mapped, every changed block logged, and at most the stated number of distinct blocks. Its breads and log_writes lead from the old block map to the new one; first in its transaction, none of the log_writes finds that number of blocks listed. |
| `Fs.FileSystem.Readi` | Xv6/fs.c:453-477 | Device, refusal, or the slice of the content; it allocates and logs nothing. |
| `Fs.FileSystem.Itrunc` | Xv6/fs.c:408-436 | The file is empty and exactly its blocks have become free; every freed block was marked; all other files unchanged. It logs exactly the bitmap blocks of the freed blocks and the inode's block; its breads and log_writes lead from the old block map to the new one. |
| `File.ChunkFits` | Xv6/file.c:127-134 | A chunk logs at most MAXOPBLOCKS blocks at any offset; the bound is MAXOPBLOCKS for every unaligned full chunk. |
| `ChunkWorst.TenChanged` | Xv6/file.c:127-134 | On a healthy disk whose four free blocks lie under four bitmap blocks, a chunk changes ten distinct blocks, so whoever logs all changed blocks logs MAXOPBLOCKS. |
| `ChunkWorst.WorstChunk` | Xv6/file.c:127-145 | On that disk a full chunk of filewrite succeeds, as its contract says, and logs exactly MAXOPBLOCKS blocks. |
| `File.OpenFile.WriteChunk` | Xv6/file.c:139-145 | One chunk: refused with nothing changed, or spliced at the offset exactly if there are free blocks for it; every changed block is logged, no more than the reservation, and no log_write finds the reservation used up. |
| `File.OpenFile.Filewrite` | Xv6/file.c:117-156 | Exactly the bytes that are to be kept are spliced in and the offset advances by as many: all of them if the write fits, otherwise the whole chunks that fit, with the result -1. Panics exactly if fewer blocks are free than those bytes need. Every chunk keeps its reservation. |
| `File.PartLeft` | Xv6/file.c:135-155 | A write is left half done exactly if it starts inside the file, at least one chunk fits and the whole does not; one byte too many on an empty file leaves 70656 bytes. |
| `File.OpenFile.Fileread` | Xv6/file.c:96-113 | The bytes at the offset, which advances by as many; short only at the end of the file; nothing is changed or logged. |
| `MkfsSpec.NextBlock` | Xv6/mkfs.c:272-286 | Counting blocks upwards hands out the block that balloc would have found. |
| `MkfsSpec.AppendCost` | Xv6/mkfs.c:268-294 | An append takes the difference of the blocks that the two sizes need. |
| `MkfsSpec.RootHasNoHole` | Xv6/mkfs.c:158-163 | With mkfs's rounded size a file mapped as far as it reaches has no hole if and only if its bytes do not end on a block boundary. |
| `MkfsSpec.EmptyHealthy` | Xv6/mkfs.c:108-115 | The zeroed image with its metadata blocks marked is a healthy file system. |
| `MkfsSpec.PreambleWritten` | Xv6/mkfs.c:94-115 | The words of the super block read back as the layout and the place of the log. |
| `Mkfs.Image.constructor` | Xv6/mkfs.c:94-115 | main starts from a healthy empty image. |
| `Mkfs.Image.Ialloc` | Xv6/mkfs.c:223-235 | The next inode is in use and empty; all files read as before. |
| `Mkfs.Image.MapBlock` | Xv6/mkfs.c:269-286 | iappend's block of the file, taken from the free blocks if new; fails exactly if the image has no block left for it. |
| `Mkfs.Image.Iappend` | Xv6/mkfs.c:255-297 | The bytes are at the end of the file, every file stays mapped exactly as far as it reaches, the image stays healthy; fails exactly if the file gets too long or the image is full. |
| `Mkfs.Image.FixRoot` | Xv6/mkfs.c:158-163 | The rounded size makes the image unhealthy exactly if the bytes appended end on a block boundary. |
| `Mkfs.Image.Balloc` | Xv6/mkfs.c:237-251 | Writing the free map at the end gives the state that the unfinished image stood for. |
| `MkfsSpec.EntriesList` | Xv6/mkfs.c:120-150 | The bytes of the root directory, read in sixteens: a number, low byte first, and a name up to its first NUL; `.` and `..` name inode 1, and entry k + 2 has number k + 2 and the k-th file's name without a leading underscore, cut at fourteen characters. |
| `Mkfs.MakeImage` | Xv6/mkfs.c:67-168 | mkfs succeeds exactly if no name is empty or has a slash and the files and the root directory fit; the image then holds them as regular files with one link, the bytes of the root directory list them, the layout is in the super block and the log untouched, and what is on it is a healthy file system if and only if the number of files plus two is not a multiple of 32. |
| `Mkfs.HoledImage` | Xv6/mkfs.c:158-163 | Thirty empty files give an image that is not a healthy file system, whoever is said to own its blocks: the root directory has a hole. |
| `Crash.HomeDecides` | Xv6/fs.c:298-310 | A disk that agrees from the inodes on is read as the same healthy file system, inode by inode and byte by byte. |
| `Crash.TraceIsSafe` | Xv6/log.c:192-202 | For every disk of a transaction and any number of crashing boots, the kernel can come up from the disk, and the recovered disk is a healthy file system with all files old, up to the header write, or all files new. |
| `Crash.Through` | Xv6/log.c:125-174 | The same for any recorded operation that leaves a healthy file system: each bread through the log sees what it saw before; the kernel panics exactly if some log_write finds the list full. |
| `Crash.ChunkThrough` | Xv6/file.c:139-145 | A chunk of filewrite, its breads and log_writes run through the log one by one and committed: the log has room for it, and whenever the machine stops, the kernel comes up without the chunk or with all of it. |
| `Crash.WriteThrough` | Xv6/file.c:117-156 | A whole filewrite over the log: as Filewrite, and wherever the machine stops, the kernel comes up with a prefix of the bytes in whole chunks, all other files unchanged; the later it stops the longer the prefix. |
| `Crash.TruncThrough` | Xv6/fs.c:408-436 | itrunc as an operation of its own: the file is there or empty after any crash, all others unchanged; the log has room if it lists the bitmap blocks and one more. |
| `Crash.Boot` | Xv6/proc.c:430-437 | From any such disk, iinit and initlog give a healthy file system on an idle log, with the files that the recovered disk has. |
| `Boot.ImageBootable` | Xv6/mkfs.c:94-115 | A healthy image of mkfs is such a disk. |
| `Boot.SuperRead` | Xv6/mkfs.c:94-115 | The seven numbers of the super block by their offsets: 1000, 941, 200, 30, 2, 32 and 58. |
| `Boot.FirstBoot` | Xv6/proc.c:430-437 | mkfs, then the first boot: the host's files are the files of the running file system, found on its disk by the reader of `DiskFormat` from block 32 on, listed by name in the root directory, and each can be opened and written as above. |
| `HeapSpec.InsertValid` | Xv6/umalloc.c:30-42 | Linking a live block in at its place keeps the list circular and address-ordered with one wrap, and each unit in exactly one block. |
| `HeapSpec.AbsorbValid` | Xv6/umalloc.c:33-42 | Merging two touching free blocks keeps that. |
| `HeapSpec.SplitValid` | Xv6/umalloc.c:78-82 | So does cutting off the tail of a larger block. |
| `HeapSpec.NoOverlap` | Xv6/umalloc.c:24-44 | Each free block ends at or before the next. |
| `HeapSpec.UnitsConserved` | Xv6/umalloc.c:24-90 | The sizes on the free list and the units of the live blocks add up to all units obtained from sbrk. |
| `Umalloc.FreeStepsOk` | Xv6/umalloc.c:24-44 | Insert, merge up, merge down: the heap is well formed and fully coalesced, the block is free space, no unit of another live block was written. |
| `Umalloc.LinkDownIs` | Xv6/umalloc.c:33-42 | The header writes of free are exactly insert and the two merges. |
| `Umalloc.Allocator.FindPlace` | Xv6/umalloc.c:30-32 | The search terminates, from wherever freep stands, at the last free node before the block. |
| `Umalloc.Allocator.Free` | Xv6/umalloc.c:24-44 | The block is free space of at least its size; all other live blocks untouched; well formed and coalesced; freep is the last node before it. |
| `Umalloc.Allocator.Morecore` | Xv6/umalloc.c:46-61 | No memory: nothing changes. Otherwise as many units as asked for, but at least 4096, join the free space, merged or not. |
| `Umalloc.Allocator.Take` | Xv6/umalloc.c:75-84 | Hands out exactly the units asked for, all of them free before, the last ones of the given block; freep moves before it. |
| `Umalloc.Allocator.FirstFit` | Xv6/umalloc.c:74-89 | The sweep terminates and takes the first block after freep that fits; morecore is called once if none is large enough and otherwise not; fails exactly if then no memory comes. |
| `Umalloc.Allocator.Malloc` | Xv6/umalloc.c:63-90 | A new live block of exactly the units for the request, or 0 exactly if no free block fits and sbrk fails; obtained units grow by what morecore got. |
| `Umalloc.UnitsFor` | Xv6/umalloc.c:69-69 | The least number of units that hold the request and a header. |
| `Umalloc.LargestRequest` | Xv6/umalloc.c:69-69 | MAXREQUEST is the largest request whose size does not overflow what sbrk takes. |
| `Pipe.FillLevel` | Xv6/pipe.c:85-85 | Although the 32-bit counters wrap, they tell exactly when the ring is full and when it is empty. |
| `Pipe.PutHolds` | Xv6/pipe.c:93-93 | A stored byte joins the end of what the ring holds and overwrites no unread byte. |
| `Pipe.DropHolds` | Xv6/pipe.c:116-116 | A read byte is the oldest unread one. |
| `Pipe.PipeBuf.WriteSome` | Xv6/pipe.c:84-94 | Stores as many bytes as fit, in order, until full. |
| `Pipe.PipeBuf.ReadSome` | Xv6/pipe.c:113-117 | Returns the oldest unread bytes, as many as asked for or all there are. |
| `PipeSync.PipeIsFifo` | Xv6/pipe.c:78-121 | In every run, kills or not, the bytes read are a prefix of the bytes stored and the rest, 0 to 512 bytes, is in the ring. |
| `PipeCalls.RecordIsSeen` | Xv6/pipe.c:78-121 | The bytes that the record says were stored and read are those that an observer of ring and counters has seen; so in every run what is taken out is a prefix of what was put in. |
| `PipeCalls.WriterSends` | Xv6/pipe.c:78-98 | In every run, whatever the others do: the bytes that enter the ring from a call of pipewrite are its buffer, in order, as far as it has come; it returns n when all have entered, and -1 only if the ring was full and the reading end closed or the process killed. |
| `PipeCalls.ReaderReceives` | Xv6/pipe.c:100-121 | In every run: what has left the ring for a call of piperead is what stands at the front of its buffer, the rest of which is as it was; they are the newest bytes taken out and the result is their number, less than asked for only if the ring is empty, and none only if also the write end is closed; -1 only if the process was killed, and then nothing was received. |
| `PipeCalls.EndsStep` | Xv6/pipe.c:59-75 | In every step, an end is closed by the body of its pipeclose and by nothing else, and never opened again. |
| `PipeCalls.CloseCloses` | Xv6/pipe.c:59-75 | In every run, when a call of pipeclose is about to return, its end is closed. |
| `PipeSync.StepKeepsExactly` | Xv6/pipe.c:59-121 | A step keeps the sleepers' invariant if and only if it is not a killed writer giving up on a full pipe while a reader sleeps. |
| `PipeSync.SleepersAreRight` | Xv6/pipe.c:59-121 | Without such a step before, whenever the pipe lock is free a sleeping reader means empty with the write end open, a sleeping writer full with the read end open. |
| `PipeSync.WithoutKill` | Xv6/pipe.c:78-121 | So it is in every run in which nobody is killed. |
| `PipeSync.KilledReturnLosesWakeup` | Xv6/pipe.c:86-88 | A run with one kill after which the lock is free, the pipe full and a reader asleep. |
| `Proc.ExitKeeps` | Xv6/proc.c:264-280 | exit's locked section keeps the process-table invariant: parents woken, children handed to init, init woken for zombies. |
| `Proc.WaitReapsKeeps` | Xv6/proc.c:297-315 | Reaping the first zombie child keeps it. |
| `Proc.StepKeeps` | Xv6/proc.c:191-524 | So does every step of scheduler, fork, exit, wait, yield, sleep, wakeup and kill, with fork's unlocked writes. |
| `Proc.RunningOnOneCpu` | Xv6/proc.c:336-419 | In every run, whenever the lock is free, a process is RUNNING if and only if some CPU's proc points to it; never do two. |
| `Proc.WaitersAreRight` | Xv6/proc.c:241-326 | In every run, who sleeps in wait has a child and no zombie child; everybody's parent is alive. |
| `Proc.ReapedOnce` | Xv6/proc.c:286-326 | In every run, wait has returned each exited pid at most once and nothing else; who has exited and not been returned is still a zombie. |
| `Proc.ReapedByParent` | Xv6/proc.c:297-313 | In every run, each pid that wait has returned was returned, in one step of its scan, to the process that was the zombie's parent at that moment. |
| `Proc.ChildReaped` | Xv6/proc.c:191-326 | A run in which init forks, the child exits and wait returns its pid to init. |
| `ProcLife.WakeupWakesAll` | Xv6/proc.c:484-501 | For every channel: after wakeup nobody sleeps on it, who did is RUNNABLE, and nothing else has changed. |
| `ProcLife.NobodyMissed` | Xv6/proc.c:445-501 | In every reachable state: wakeup finds everybody who has called sleep on the channel and has not been woken. |
| `ProcLife.KillMarks` | Xv6/proc.c:507-524 | The target is marked and does not sleep any more; nothing else has changed. |
| `ProcLife.ExitEffect` | Xv6/proc.c:241-282 | The process is a zombie, its children are init's, a parent asleep in wait is RUNNABLE, and so is init if it sleeps in wait and was given a zombie; nobody is woken but by these two channels, and the rest is as it was. |
| `ProcLife.EveryStep` | Xv6/proc.c:78-524 | In every step, for every slot: the states follow one another in the order of the life of a process; a new process has a pid nobody had; a parent is who forked, then init once that one has exited; killed is set by kill and reset by the reaping wait; who sleeps has the channel it asked for, and is woken by it, by its child or by kill only. |
| `ProcLife.LifeCycle` | Xv6/proc.c:78-524 | So it is in every run. |
| `ProcLife.AwakeHasNoChannel` | Xv6/proc.c:463-479 | In every run, who has left sleep has no channel, so a later wakeup does not find it. |
| `ProcLife.WaitDecides` | Xv6/proc.c:286-326 | A turn of wait takes the first zombie child of the table, if there is one; otherwise it sleeps if and only if it has a child and is not killed, and fails if not. |
| `ProcLife.WaitMoves` | Xv6/proc.c:286-326 | So a turn of wait is never stuck. |
| `ProcLife.RunningMoves` | Xv6/proc.c:191-479 | Nor is a running process that has begun a locked section of exit, wait, yield or sleep, or holds fork's embryo, whatever the others do. |
| `ProcTable.Ptable.Wakeup1` | Xv6/proc.c:484-492 | For every channel, the sleepers on it become RUNNABLE, and every other slot is as it was. |
| `ProcTable.Ptable.Kill` | Xv6/proc.c:507-524 | Marks the first slot with the pid, RUNNABLE if it slept, and changes nothing else; -1 exactly if no slot has the pid. |
| `ProcTable.Ptable.FindUnused` | Xv6/proc.c:85-90 | The first UNUSED slot, or that there is none. |
| `ProcTable.Ptable.Exit` | Xv6/proc.c:266-279 | The loops of exit, wakeups inside included, give the table of the exit step. |
| `ProcTable.Ptable.ScanChildren` | Xv6/proc.c:296-315 | The first zombie child, or that there is none and whether there is a child. |
| `Scheduler.Pick` | Xv6/proc.c:352-363 | The choice has the smallest priority number of all RUNNABLE; it is the next RUNNABLE slot if nobody beats it, else the first of the table among the best. |
| `Scheduler.PickedWithinNproc` | Xv6/proc.c:344-380 | On one CPU, while all RUNNABLE have one priority, one that stays RUNNABLE is among the next NPROC picks, however the table changes otherwise. |
| `Vm.TakenOk` | Xv6/kalloc.c:82-95 | kalloc pops the list kept inside the free pages; the page was free. |
| `Vm.GivenOk` | Xv6/kalloc.c:59-77 | kfree pushes a page that was in use; no page is on the list twice. |
| `Vm.WithTableOk` | Xv6/vm.c:45-53 | A new, zeroed table page changes no mapping. |
| `Vm.PteWritten` | Xv6/vm.c:54-54 | Writing an entry changes the flat map at that page and nowhere else. |
| `Vm.SkipTable` | Xv6/vm.c:266-268 | Where a directory entry is empty, skipping to the next one equals unmapping page by page. |
| `Vm.PageByPageOk` | Xv6/vm.c:264-278 | Unmapping frees exactly the user pages of the range and leaves every other page, table and mapping alone. |
| `Vm.Memory.Kalloc` | Xv6/kalloc.c:82-95 | The head of the list, or 0 if it is empty. |
| `Vm.Memory.Kfree` | Xv6/kalloc.c:59-77 | The page is filled with junk and becomes the head of the list. |
| `Vm.Memory.Freerange` | Xv6/kalloc.c:46-53 | The whole pages between the two addresses are on the free list, last first, and the list is well formed. |
| `Vm.Memory.NewDirectory` | Xv6/vm.c:124-126 | A zeroed page directory is an address space with nothing mapped; fails exactly if no page is free. |
| `Vm.Memory.Walkpgdir` | Xv6/vm.c:35-55 | The page's table, made if asked for, which fails exactly if it is missing and no page is free; the map does not change. |
| `Vm.Memory.Mappage` | Xv6/vm.c:60-80 | The held page is mapped there and nowhere else, present, writable and for the user in both entries; the panic "remap" exactly if something was mapped; no memory exactly if a table is missing and no page is free. |
| `Vm.Memory.Deallocuvm` | Xv6/vm.c:255-279 | The loop that skips directories equals the page-by-page one, state for state; for the processor, every address of the range faults and every other goes where it went. |
| `Vm.Memory.Allocuvm` | Xv6/vm.c:221-249 | If there are as many free pages as new pages and missing tables, exactly the pages of the new range appear, on zeroed frames that were free; for the processor, each of their addresses may be read and written by the user and every other address goes where it went; otherwise the result is 0, the old map is restored and every page taken is free again or an empty table. |
| `Vm.WalkIsLookup` | Xv6/vm.c:35-55 | The walk of the processor, ten bits, ten bits, twelve bits, faults exactly where the map has no page and otherwise ends at its entry; a page with the user and writable bits is open to the user, because its directory entry has them too. |
| `Vm.GrownBytes` | Xv6/vm.c:221-249 | After growth, each address of the new pages leads to a zeroed frame that was free, at its own offset, open to the user; every other address is as it was. |
| `Vm.GrowthMapped` | Xv6/vm.c:221-249 | User pages are again mapped exactly up to the new or the old size. |
| `Vm.Memory.Freevm` | Xv6/vm.c:283-298 | Every page of the address space, user pages, tables and directory, is on the free list once; all others are as they were. |
| `Shell.WordsReadBack` | Xv6/sh.c:265-308 | For every line that parses, each argument and file name, read as a C string after nulterminate, is the text of its token. |
| `Shell.ArgsOf` | Xv6/sh.c:431-442 | The argument loop reads rendered arguments back. |
| `Shell.RoundTrip` | Xv6/sh.c:327-446 | Parsing the fully parenthesised rendering of any tree with legal words and at most nine arguments gives back the tree, with `>` or `>>` for output. |
| `Shell.AppendIsOutput` | Xv6/sh.c:380-395 | The fully parenthesised rendering of any legal tree, with `>>` throughout instead of `>`, parses to the same command, open mode included. |
| `ShellMap.KeptCommand` | Xv6/sh.c:265-446 | Two lines whose tokens correspond are the same command or the same panic. |
| `ShellBlank.BlankMeansNothing` | Xv6/sh.c:262-325 | In any line, at either end, beside one of the seven symbols or beside a blank, but not inside `>>`, one more blank, tab, return, newline or vertical tab gives the same command or the same panic. |
| `ShellBlank.BlankSeparates` | Xv6/sh.c:262-308 | Each of these five between two words makes two arguments of them; without it they are one. |
| `ShellBlank.WordsAreWhole` | Xv6/sh.c:262-308 | In any line that parses, an argument or file name is not empty, has none of the five blanks and seven symbols in it, and ends at one of them or with the line. |
| `ShellShow.ShowReadsBack` | Xv6/sh.c:344-446 | Any legal tree, written with as few parentheses as `;`, `&`, the right-associative pipe and redirections allow, is read back. |
| `ShellShow.WordsAlone` | Xv6/sh.c:429-442 | Words alone are one command with them as arguments, up to nine; from ten on the panic "too many args". |
| `ShellShow.TooManyClosed` | Xv6/sh.c:334-338 | Behind any legal command a closing parenthesis is the panic "syntax". |
| `ShellShow.NotClosed` | Xv6/sh.c:408-409 | An opening parenthesis before any legal command is the panic "syntax - missing )". |
| `ShellShow.NoFile` | Xv6/sh.c:380-383 | A redirection sign behind any legal command is the panic "missing file for redirection". |
| `ShellItems.AnyOrder` | Xv6/sh.c:374-446 | Arguments and redirections in any order: the arguments in their order, and around them the redirections, the first innermost. |
| `ShellAppend.AppendIsOutput` | Xv6/sh.c:380-395 | In any line at all, turning one `>` that has no other beside it into `>>` gives the same command, open modes included, or the same panic. |
| `ShellParser.Parser.Next` | Xv6/sh.c:265-308 | gettoken: the token and the cursor behind it, as the grammar function says whose characters and words `ShellBlank` fixes. |
| `ShellParser.Parser.ParseRedirs` | Xv6/sh.c:374-397 | Consumes all redirections, `>>` like `>`, or panics without a file name. |
| `ShellParser.Parser.ParseArgs` | Xv6/sh.c:429-445 | The argument loop with interleaved redirections, its two panics included. |
| `ShellParser.Parser.ParseBlock` | Xv6/sh.c:399-413 | A parenthesised line and its redirections; terminates because the parenthesis is consumed. |
| `ShellParser.Parser.ParseExec` | Xv6/sh.c:415-446 | Does what the grammar function says, from any cursor. |
| `ShellParser.Parser.ParsePipe` | Xv6/sh.c:361-372 | Does what the grammar function says; right-associative. |
| `ShellParser.Parser.ParseLine` | Xv6/sh.c:344-359 | Does what the grammar function says; terminates by input consumed. |
| `ShellParser.Nulterminate` | Xv6/sh.c:449-493 | NULs at the ends of exactly the command's words, nothing else written. |
| `ShellParser.Parsecmd` | Xv6/sh.c:327-342 | The tree of the grammar with every word a C string in the buffer, or a panic with the buffer untouched. |

## Left out

- Log.Log.Commit: no process holds a buffer while the commit runs; reads that go on beside it are not modelled.
- Log.Log.WriteLog: the same.
- Log.Log.InstallTrans: the same.
- Log.Log.WriteHeader: the same.
- Log.Log.Transaction: one process at a time; several at once are in LogGroup.
- Log.Log.LogWrite: the guard and the body are one call here; that the guard is read outside the lock is in LogGroup.
- Log.Log.Initlog: requires a log of at most NBUF blocks, as mkfs makes it; a larger one could fill the cache with pinned blocks.
- Bio.Bcache.Bget: the root device only; waiting for a buffer's sleep lock is not modelled, the block is not locked by another.
- Bio.Bcache.Bread: the same.
- Fs.FileSystem.Writei: runs on one block map; that this map survives crashes as a whole is in Crash.
- Crash.ChunkThrough: a log of more than MAXOPBLOCKS blocks, one process; the operation runs on the block map first and its accesses then go through the log in order.
- Crash.WriteThrough: the same.
- Crash.TruncThrough: one process; iput's reference counting around it is not modelled.
- Mkfs.MakeImage: at most NINODES - 2 files, which mkfs does not check; the host's files are parameters, and the root directory's bytes after the entries are not described.
- Fs.FileSystem.Readi: a device's own result is a parameter.
- File.OpenFile.Filewrite: inodes other than devices; the pipe case is in PipeSync.
- File.OpenFile.Fileread: inodes other than devices; the pipe case is in PipeSync.
- Umalloc.Allocator.Malloc: requests up to 0x7ffffff0 bytes, beyond which the size handed to sbrk overflows; sbrk's answer is a parameter, at or above the current break and aligned to a header.
- Umalloc.Allocator.Free: only blocks that malloc gave out and that are still live.
- Vm.Memory.Mappage: one page at a time, as allocuvm calls it; the kernel's own mappings are taken as given.
- Vm.Memory.NewDirectory: the kernel mappings that setupkvm adds are left out, and no other address space is in use.
- Proc.StepKeeps: the body of a locked section is one step; the scheduler may pick any RUNNABLE process, and which one it picks is in Scheduler.
- Directories, path lookup, inode reference counts and ialloc of fs.c.
- copyuvm, the kernel half of setupkvm, inituvm, loaduvm and exec.
- runcmd and the built-in commands of the shell.
- Drivers, boot code, interrupts, memory ordering and the spin locks themselves.
- User and group ids, priorities set by chpr, process listings: single range checks or printing.
