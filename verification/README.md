# TinyKernel, verified

This project models the stateful core of TinyKernel, a small x86 teaching kernel written in C, and
proves what its code is relied on for. It is written in Dafny 4.11; `dafny verify dfyconfig.toml`
checks all of it.

The model follows the C code function by function: the same branches, loops, constants and
assertions. An `ASSERT` of the kernel is a proof obligation. Where it can fail on inputs the
function otherwise accepts, the operation has an outcome for it, and its contract says exactly when
that happens.

## What is modelled

**Shared structures.** `Bitmaps` is the allocation bitmap, a byte array whose meaning is a sequence
of bits; every allocator of the kernel scans it. `Lists` is the doubly linked list with two sentinels, shown to
be a sequence. The other modules speak of lists as the sequences proved there.

**File system.** The disk is an array of 512-byte sectors (`Disks`). `Inodes` has the inode table
with records that straddle sectors and the reference-counted cache of open inodes. `Ownership` states
that the in-memory block bitmap, as far as it is not masked for good, is the disjoint union of what the live
inodes own, and has the one argument by which every operation keeps that. `Files` has `file_write` and `file_read` over direct blocks
and the table of indirect ones; `Release` gives an inode's blocks back. `Dirs`, `DirOps`, `DirDelete` and
`DirRead` show that a directory is a finite map from names to entries. `Formats` and `FormatDisk` format and
mount a partition, from which all of this starts.

**Paths.** `Paths` parses and washes path strings. `Trees` looks them up in a directory tree, `Cwd`
prints the working directory, `TreeOps` shows which trees can come about and by which calls they break,
`Washing` when washing a path keeps what it names. `TreeDisk` ties the tree to the sectors: what the
operations on one directory do to the disk is what the tree operations say, for removing and making whole
directories too.

**The file system as a whole.** `FileSystems` puts all of this together: block bitmap, inode bitmap, inode table, every
inode, the tree and the cache agree after formatting, and each operation keeps that or says exactly when it does not.
`Volumes` has the argument for it, one changed inode at a time. What users see are a tree and the contents of its
files; `Links` has the runs of the operations over these two, and shows that in every run the files are exactly those
the tree has entries for and each holds everything written to it since it was created. `Overruns` says whose memory
the last step of a write can hit.

**Memory.** `Pages` has frame pools, the virtual-address bitmap and the page table; `Arenas`,
`HeapSteps` and `Heaps` the allocator on top of it, `MemInit` the state it boots in.

**Threads.** `Threads` is the scheduler. `Locks` takes re-entrant locks, semaphores and the waiting loops
of the ring queue apart into the steps a timer tick can separate; `LockSafety` proves what holds in
every interleaving, `LockWaiting` that no release of a lock is lost on those who wait, and `Sync` runs the same steps on
the kernel's variables. `IoQueues` is the ring buffer as a sequence, and pipes.

**Processes.** `WaitExit` has fork, exit and wait as steps over the list of all threads. `Forks`
copies an address space and gives it back.

Every invariant is shown to hold of the state the kernel starts from: `FormatDisk.FormatAndMount` for the
disk and the tree on it, `TreeOps.FormatOk` for the tree, `LockSafety.BootedOk` for threads and locks,
`WaitExit.BootOk` for processes, and `MemInit.Init` for the heap.

## Where the code and its promise part

The following came out of the proofs; each has an exact condition or a concrete witness below.

- A write that brings a file to exactly 71680 bytes passes the size test and then fails the
  assertion on 140 blocks (`Files.FileWrite`). A read that reaches block 139 fails an assertion (`Files.FileRead`).
- `inode_sync` keeps the inode number in eight bits (`Inodes.SyncedRecordComesBack`, `Inodes.SyncAliases`). The file
  system is whole after a file or a directory is made if and only if the number is below 256
  (`FileSystems.FileSystem.CreateFile`, `FileSystems.FileSystem.MakeDirectory`).
- `file_write` hands `inode_sync` a buffer of one sector, which reads two where the inode's record straddles them. So for
  about every seventh inode, from 6 on, a write ends by overwriting what lies behind the buffer (`Files.FileWrite`):
  the list links of a free block or somebody's memory (`Overruns.WhoIsBehind`), and for inode 6 with two of its block
  numbers (`Overruns.BehindAtSix`). All other callers pass 1024 bytes.
- `sys_rmdir` gives a directory's number back even if others have it open, and `sys_unlink` a file's whose entry in the
  file table is empty but which is cached, as after a fork and one close. An inode that is gone then stays cached under
  a number that is free again. `FileSystems.FileSystem.RemoveDir` and `FileSystems.FileSystem.Unlink` have the exact conditions,
  `FileSystems.RemoveWhileOpen` the two calls that lead there.
- `bitmap_scan` tests one bit behind the map, and `vaddr_get` then sets it: a run of pages can leave the kernel's
  address bitmap. `Bitmaps.GuardBitDecides` says exactly when, `Pages.Memory.MallocPage` and
  `Heaps.KernelHeap.SysMalloc` what becomes of it, and `MemInit.LeaveTheMap` runs into it from boot, whatever memory
  the kernel has.
- The block bitmap that formatting writes leaves one bit too many clear (`Formats.FormatBlockBitmap`); its block is
  usually the first sector behind the partition (`Formats.OneBlockTooMany`).
- A directory entry with a name of sixteen characters does not read back (`Dirs.EntryRoundTrip`).
- Looking up a path of two or more slashes returns a number that was never set (`Trees.SearchFile`).
- Washing a path can change what it names when a ".." stands after names that lead to no directory: "/f/.." with
  a file f, "/x/.." with x missing. "/f/." keeps its meaning. `Trees.WashPreservesLookup` has the condition that is
  enough for every path, `Washing.WashExact` the exact one where a regular file ends the walk, `Washing.WashMissing`
  the cases where a missing name does.
- `sys_rmdir` of a path that ends in "." frees the directory and leaves its entry behind in the parent
  (`TreeOps.RmdirKeepsTree`, `TreeOps.RmdirDotWitness`).
- `pipe_write` counts the cell that must stay empty and can therefore wait (`IoQueues.IoQueue.PipeWrite`).
- `sys_malloc` can fail the page-count assertion for the largest sizes (`Heaps.KernelHeap.SysMalloc`).
- An exiting process hands only its first child to init (`WaitExit.ExitLeavesNoChild`). A child left behind may find
  no parent when it exits in turn, and a null pointer is followed (`WaitExit.WhoFindsNoParent`,
  `WaitExit.SecondChildFindsNoParent`).
- Init can miss a child that hangs already, exactly when it inherits it while it waits (`WaitExit.InitMissesAtExit`,
  `WaitExit.InitMayMissAChild`).

## Model

| member | source | states |
|---|---|---|
| Bitmaps.Bitmap.Scan | lib/kernel/bitmap.c:21-59 | answers the lowest start of a run of `cnt` clear bits, or -1 if there is none, over the map and the one bit behind it; over the map itself when that bit is set or `cnt` is 1 |
| Bitmaps.Bitmap.FirstClearBit | lib/kernel/bitmap.c:24-37 | skipping full bytes and then set bits finds the first clear bit |
| Bitmaps.Bitmap.ScanTest | lib/kernel/bitmap.c:14-18 | reads one bit, the one behind the map included |
| Bitmaps.Bitmap.Set | lib/kernel/bitmap.c:62-71 | writes one bit and no other, be it the one behind the map |
| Bitmaps.Bitmap.Take | kernel/memory.c:117-123 | scanning for a run and setting it bit by bit marks the first-fit run over the map and the bit behind it, and nothing else |
| Bitmaps.Bitmap.Release | kernel/memory.c:147-150 | clears exactly a run |
| Bitmaps.Bitmap.constructor | lib/kernel/bitmap.c:9-11 | a new map has every bit clear |
| Bitmaps.GuardBitDecides | lib/kernel/bitmap.c:46-57 | the scan's answer is first-fit for the map unless, and only unless, the bit behind it is clear, several bits are wanted, the last `cnt - 1` bits are clear and no run fits inside; then the run ends with the bit behind |
| Bitmaps.GuardBitWitness | lib/kernel/bitmap.c:46-57 | a map of eight bits on which the scan reports a run that leaves the map |
| Bitmaps.FreeCountTake | lib/kernel/bitmap.c:62-71 | taking a clear bit uses up exactly one free place |
| Lists.List.InsertBefore | lib/kernel/list.c:14-22 | rewiring four pointers inserts one element into the sequence and keeps all links |
| Lists.List.Push | lib/kernel/list.c:25-27 | puts the element first |
| Lists.List.Append | lib/kernel/list.c:30-32 | puts the element last |
| Lists.List.Remove | lib/kernel/list.c:35-40 | takes one element out and joins its neighbours |
| Lists.List.Pop | lib/kernel/list.c:43-47 | removes and returns the first element of a list that is not empty |
| Lists.List.ElemFind | lib/kernel/list.c:50-60 | finds an element exactly if it is in the sequence |
| Lists.List.Traversal | lib/kernel/list.c:81-93 | returns the first element the callback accepts, or null if it accepts none |
| Lists.List.Len | lib/kernel/list.c:68-76 | counts the elements |
| Disks.WordsRoundTrip | fs/file.c:268 | block numbers written to a sector as 32-bit words read back as themselves |
| Inodes.InodeLocate | fs/inode.c:21-43 | the position is that of record number times 76 bytes, inside the 608 sectors, and two sectors are needed exactly when the record's last byte lies in the next sector |
| Inodes.SlotsDisjoint | fs/inode.c:28-31 | records of different inodes share no byte of the table |
| Inodes.InodeRoundTrip | fs/inode.c:54-58 | number, size and block list survive the conversion to a record |
| Inodes.RecordLayout | fs/inode.c:54-58 | where number, size and the thirteen blocks lie in the record; open count, write_deny and list links are zero |
| Inodes.PatchTable | fs/inode.c:61-72 | reading one or two sectors, overwriting a record and writing them back changes one entry of the table and no sector outside it |
| Inodes.RecordRead | fs/inode.c:102-109 | the bytes taken from the buffer are the record |
| Inodes.Partition.InodeSync | fs/inode.c:46-73 | the table changes in one place, the inode's number modulo 256, which becomes the inode's record; unless the record straddles two sectors and the caller's buffer is shorter: then the rest of the two sectors lies behind the buffer |
| Inodes.SyncedRecordComesBack | fs/inode.c:48 | after a sync a record reads back under its own number if and only if the number is below 256, or the slot held that record already |
| Inodes.SyncAliases | fs/inode.c:48 | syncing inode 256 destroys the root's record |
| Inodes.Partition.InodeOpen | fs/inode.c:76-116 | a cached inode is shared and counted up; otherwise the record is read from the table, write_deny as its byte says, and put first, with count one; all others keep theirs |
| Inodes.Partition.InodeClose | fs/inode.c:119-133 | counts down, and drops the inode from the cache at zero and only then |
| Inodes.Inode.Init | fs/inode.c:136-148 | a new inode is empty and owns no block |
| Ownership.BlockBitmapAlloc | fs/file.c:27-34 | hands out the first free block as a sector address and marks that block only |
| Ownership.InodeBitmapAlloc | fs/file.c:17-24 | hands out the first free inode number and marks that number only |
| Ownership.OwnershipFrame | fs/file.c:232-368 | an inode that takes only free blocks, gives back only its own and writes only to its own keeps the bitmap the disjoint union of all inodes' blocks, and every other inode's blocks as they were |
| Ownership.OwnedInRange | fs/fs.c:153-155 | every owned block is marked, lies in the data area, and is the root's first block only if the root owns it |
| Ownership.GrowthKeepsAgreement | fs/file.c:270-368 | the same for an inode that only grows |
| Files.FileWrite | fs/file.c:199-401 | refused above 71680 bytes, halted by an assertion at exactly 71680; otherwise the contents become old contents followed by `buf`, in all four allocation cases; the blocks stay dense, ownership agrees, other inodes are kept, exactly the blocks needed were taken, and in the inode table one record changed; but the final sync overruns its buffer if and only if the record straddles two sectors |
| Overruns.BehindBytes | fs/inode.c:60-66 | the first bytes behind the buffer become the end of the record |
| Overruns.BehindAtSix | fs/file.c:205-397 | for inode 6, the first whose record straddles two sectors, the two words behind the buffer become the block numbers 10 and 11 |
| Overruns.WhoIsBehind | kernel/memory.c:450-484 | behind the buffer lies the next block of its arena, which is on the free list if it is not handed out; or, behind the last block, the end of the page |
| Files.CollectBlocks | fs/file.c:253-368 | in each case the block map grows to the needed length by free blocks only, the table on disk included, and all_blocks is right from the last old block on |
| Files.AddDirect | fs/file.c:272-298 | new direct blocks |
| Files.AddCrossing | fs/file.c:299-343 | the case that creates the table |
| Files.AddIndirect | fs/file.c:344-367 | new blocks entered in the existing table |
| Files.FirstWrite | fs/file.c:232-245 | a file never written gets its first block, which is never the root's |
| Files.WriteChunks | fs/file.c:370-396 | the chunk loop appends exactly `buf`, touches only the file's blocks and leaves the position one before the end |
| Files.PutChunk | fs/file.c:375-388 | one sector is rewritten; what lies before the chunk is kept |
| Files.WriteChunk | fs/file.c:376-388 | one sector write appends one chunk to the bytes the blocks hold |
| Files.ExtendMap | fs/file.c:270-368 | extending a well-formed block map by free blocks gives a well-formed one that owns exactly the old and the new blocks |
| Files.OtherFilesUnchanged | fs/file.c:199-401 | when the other inodes' blocks are kept, every other file has the same contents |
| Files.ClosedFileUnchanged | fs/file.c:199-401 | so has a closed file, known by its record in the table, unless the record written back landed in its place |
| Files.TableUntouched | fs/file.c:232-398 | up to that last sync a write touches no sector of the inode table |
| Files.FileRead | fs/file.c:405-501 | returns exactly the contents from the position on, as many bytes as asked for or left; -1 at the end; halted by an assertion exactly when the stretch reaches block 139, or the position is the 2^32 - 1 that writing nothing to an empty file leaves |
| Files.CollectForRead | fs/file.c:429-477 | all five cases load the addresses of all blocks from start to end |
| Files.ReadChunks | fs/file.c:479-497 | the read loop delivers that stretch of the contents and moves the position behind it |
| Release.InodeRelease | fs/inode.c:172-218 | clears exactly the bits of the blocks the inode owned and its number's bit; ownership agrees for the remaining inodes; the cache is as before |
| Release.FreeBlocks | fs/inode.c:176-210 | direct blocks, the table's entries and the table itself, each once, and nothing else |
| Release.ReleaseKeepsAgreement | fs/inode.c:199-215 | clearing what one inode owns leaves the others exactly covered |
| Dirs.EntryRoundTrip | fs/dir.c:96-103 | an entry reads back as itself if and only if its name is shorter than sixteen characters or the inode number starts with a zero byte |
| Dirs.EntryLayout | fs/dir.h:16-20 | an entry is 24 bytes: sixteen of the name, filled up with zeros, the inode number and the type |
| Dirs.LookupAgrees | fs/dir.c:22-75 | a name is in the map exactly if some slot carries it, and the map holds what the first such slot holds |
| Dirs.AddBinding | fs/dir.c:184-191 | filling an unused slot under a new name adds one binding |
| Dirs.RemoveBinding | fs/dir.c:302-306 | zeroing a used slot removes exactly its binding |
| Dirs.LiveUpdate | fs/dir.c:189-309 | rewriting a slot changes the number of live entries by what it adds and removes |
| DirOps.SearchDirEntry | fs/dir.c:22-75 | returns the first slot with the name over all 140 blocks, holes skipped, or nothing |
| DirOps.SlotLayout | fs/dir.c:29-66 | the slots are the 24-byte pieces of the sectors, 21 to a sector, in the order of the 140 blocks; a missing block is 21 unused slots |
| DirOps.SyncDirEntry | fs/dir.c:106-202 | the entry goes to the first unused slot, in a fresh sector if that slot has none; the map gains one binding; size, ownership and the other inodes are kept right; the inode table is not touched |
| DirOps.SectorWritten | fs/dir.c:187-188 | rewriting one slot of one sector rewrites that slot of the directory |
| DirOps.SectorAdded | fs/dir.c:174-176 | a new sector with one entry fills the first of 21 missing slots |
| DirOps.SectorDropped | fs/dir.c:268-275 | giving back a sector with one live entry kills exactly that slot |
| DirOps.OtherDirsUnchanged | fs/dir.c:205-315 | when the other inodes' blocks are kept, every other directory has the same entries |
| DirDelete.DeleteDirEntry | fs/dir.c:205-315 | succeeds exactly if an ordinary entry has the inode number; removes that entry and its binding, gives the sector back if it was alone in one that is not the first, syncs the inode; otherwise nothing changes |
| DirDelete.CountSector | fs/dir.c:242-258 | one pass counts the ordinary entries, notices "." and finds the entry; the assertion that it is found once cannot fail |
| DirDelete.RemovedSector | fs/dir.c:268-275 | freeing the sector leaves a hole, a directory that is still well formed, and an exact bitmap |
| Formats.FormatEstablishes | fs/fs.c:152-201 | a disk with the root's first sector and a map that marks only that block has one inode, the root, which owns the block and is an empty directory; no other block is taken |
| Formats.FormatBlockBitmap | fs/fs.c:153-167 | of the map that is written, bit 0 is set if there are at least eight blocks, and of the others exactly those behind bit `block_bitmap_bit_len`: one more than the blocks is clear |
| Formats.OneBlockTooMany | fs/fs.c:90-119 | the sector of that block is the first one behind the partition unless the second computation of the map's size gave a smaller one |
| Formats.Regions | fs/fs.c:84-119 | the number of blocks is what 611 sectors and a first estimate of the bitmap leave; the data area starts 2 + b + 1 + 608 sectors into the partition, where b is the bitmap these blocks need, and ends as far before the partition's end as b is below the estimate |
| FormatDisk.FormatAndMount | fs/fs.c:79-204 | formatting and mounting leaves boot sector, superblock, block bitmap, inode bitmap, 608 sectors of inode table and the data area one behind the other inside the partition, the bitmap with just the sectors its blocks need; block ownership is exact, the root's record is in the table, the root is an empty directory, the tree on the disk is the formatted tree, and only inode 0 is taken |
| FormatDisk.FormattedMap | fs/fs.c:153-165 | the masked tail is set for good, and in front of it only the root's bit is set |
| Formats.NewInodeAgrees | fs/inode.c:136-148 | a new inode owns nothing and leaves ownership exact |
| Formats.NewFileIsFile | fs/file.c:105-117 | a file just created is well formed and empty |
| Formats.MakeDirectory | fs/fs.c:701-735 | a free block, never the root's, becomes a sector with the two dot entries and nothing else; ownership stays exact and other inodes are kept |
| DirRead.DirRead | fs/dir.c:318-370 | returns the live entry at the position and moves on by one entry, or nothing past the last; its assertion cannot fail |
| DirRead.ReadAll | shell/buildin_cmd.c:168 | reading from position 0 yields every live entry once, in slot order, and then the end |
| DirRead.DirIsEmpty | fs/dir.c:373-377 | answers true if and only if "." and ".." are all the names in the directory |
| DirRead.EmptyMeansDotsOnly | fs/dir.c:373-377 | the size is that of two entries if and only if the map has the two dot entries and no other |
| DirRead.EmptyDirHasOneSector | fs/dir.c:384-388 | an empty directory keeps no block but its first, so the assertions of dir_remove hold |
| Paths.PathParse | fs/fs.c:207-223 | takes the first component off and leaves a path of the remaining ones, or nothing |
| Paths.PathDepthCnt | fs/fs.c:226-243 | counts the components; without any, the answer is 0 or 1, as the uncleared buffer happens to be |
| Paths.ComponentsOfJoin | fs/fs.c:275-276 | a path put together from components with slashes, as the searched path is, parses into those components |
| Paths.ComponentsSplit | fs/fs.c:207-223 | the components of two paths with a slash between them are those of the one and then those of the other; what has no slash is one component |
| Paths.WashPath | shell/buildin_cmd.c:18-52 | the buffer ends up holding the path written from the components with dots dropped and double dots undone |
| Paths.WashIdempotent | shell/buildin_cmd.c:18-52 | washing twice is washing once, and the result has no empty, dot or double-dot component |
| Paths.WashedPathFits | shell/buildin_cmd.c:29-44 | the washed path is no longer than the original |
| Trees.SearchFile | fs/fs.c:246-305 | returns the inode, type and parent that following the names gives, or -1 with the directory; the searched path is the names up to the one the walk ended at; the type is 2 for a directory, 1 for a file, 0 for nothing; junk, which may read as -1, exactly for a path of several slashes |
| Trees.WashPreservesLookup | shell/buildin_cmd.c:31-51 | if every ".." of the path stands after names that lead to a directory, the washed path finds the same inode and type, or is missing too |
| Washing.WashKeepsDirs | shell/buildin_cmd.c:31-51 | a path that leads to a directory needs no condition |
| Washing.WashExact | shell/buildin_cmd.c:31-51 | where a regular file ends the walk, washing keeps what the path names if and only if the washed path begins with the washed path up to the file |
| Washing.WashMissing | shell/buildin_cmd.c:31-51 | where a missing name ends the walk, the washed path is missing too if it begins with the washed path up to that name, finds a directory if it is a proper beginning of that, and otherwise turns off at another name and keeps what the path names if and only if a name on its own way is missing |
| Washing.FilePathIsUnique | fs/fs.c:246-305 | a file has one clean path |
| Trees.DepthTestDecides | fs/fs.c:331-338 | comparing the depths of the path and of the searched path tells exactly whether all names but the last lead to a directory, whether the last is found or missing |
| Trees.WalkStops | fs/fs.c:287-293 | a walk that leaves the directories at a name ends there |
| Trees.SearchPrefix | fs/fs.c:287-290 | once the walk has left the directories, the remaining names do not matter |
| Trees.StepKinds | fs/fs.c:281-290 | each step finds a directory of the tree or a regular file; "." stays, ".." goes up |
| Washing.WashNeedsDirectories | fs/fs.c:287-297 | in a formatted tree with one file f, "/f/.." finds f and "/x/.." is missing, while both wash to the root; "/f/." keeps its meaning |
| TreeOps.FormatOk | fs/fs.c:187-200 | the tree formatting leaves is well formed |
| TreeOps.MkdirKeepsTree | fs/fs.c:717-741 | a new directory with its dot entries, entered in its parent, leaves a well-formed tree |
| TreeOps.RmdirKeepsTree | fs/fs.c:824-856 | for every path to an empty directory other than the root, removing it leaves a well-formed tree if the path does not end in ".", and one that is well formed in no way if it does |
| TreeOps.DanglingEntry | fs/dir.c:395-398 | releasing a directory without deleting its entry leaves a tree that is well formed in no way |
| TreeOps.RmdirDotWitness | fs/fs.c:824-856 | the run of mkdir "/a" and rmdir "/a/." from formatting on |
| TreeOps.FileTree.SysRmdir | fs/fs.c:824-856 | what sys_rmdir answers and leaves of the tree, as the next two rows spell out |
| TreeOps.RmdirOfPath | fs/fs.c:824-856 | halted by an assertion exactly for the root; 0 exactly if the path leads to a directory whose slots behind the dots are all unused; then that directory is gone, otherwise nothing changes |
| TreeOps.RmdirOfSlashes | fs/fs.c:824-856 | for a path of several slashes the unset number decides: halted for 0, done if it is an empty directory's, astray if it is no directory's and not -1 |
| TreeOps.CreateKeepsTree | fs/file.c:119-128 | so does entering a new file |
| TreeOps.UnlinkKeepsTree | fs/fs.c:601-652 | and removing the file a path leads to, whatever names follow it |
| TreeOps.RunsKeepTree | fs/fs.c:601-856 | along a run of these operations from formatting on every tree is well formed if and only if no directory was removed by a path that ends in "." |
| TreeDisk.LookupRefines | fs/dir.c:22-75 | what search_dir_entry finds is one step of the lookup in the tree read off the disk |
| TreeDisk.SyncRefines | fs/dir.c:106-202 | what sync_dir_entry leaves on the disk is the tree with that one slot written |
| TreeDisk.CreatingIs | fs/file.c:119-128 | which is what creating a file or a directory does to the tree |
| TreeDisk.DeleteRefines | fs/dir.c:205-315 | what delete_dir_entry leaves is deletion in the tree, whether an entry was found or not |
| TreeDisk.TableIsNoDir | fs/inode.c:46-73 | rewriting the inode table changes no directory |
| TreeDisk.DirRemove | fs/dir.c:380-402 | its assertions hold; the tree on the disk loses the entry, if there is one, and the directory; the inode's number is free and ownership stays exact; the parent stays well formed, other inodes and the cache as they were, and at most the parent's record is written |
| TreeDisk.MakeDir | fs/fs.c:701-753 | the new directory's first sector, its entry in the parent and both inode records: the tree on the disk gains exactly this directory, and the table exactly two records; both directories are well formed and other inodes as they were |
| Volumes.Changed | fs/file.c:199-401 | when one inode changes and the others keep their blocks, the volume stays sound, and tree and contents change at that inode only |
| Volumes.Rewritten | fs/inode.c:61-72 | rewriting sectors in front of the data area changes neither |
| Volumes.Dropped | fs/inode.c:213-215 | releasing an inode takes it out of both |
| Links.CreateLinks | fs/file.c:119-128 | entering a new file adds exactly it to the files the tree has entries for |
| Links.UnlinkLinks | fs/fs.c:646-648 | deleting a file's entry takes exactly it away |
| Links.RmdirLinks | fs/dir.c:395-398 | dir_remove keeps tree and files in agreement if the directory is looked for in its parent, and leaves a tree that is well formed in no way if it is looked for in itself |
| Links.RunsHoldWhatWasWritten | fs/fs.c:601-856 | after every run of creating, writing and removing from formatting on, the tree is well formed, the files are exactly those it has entries for, and each holds everything written to it since it was created |
| FileSystems.RecordSet | fs/inode.c:46-73 | syncing an inode keeps every live inode's record in the table if and only if its number is below 256 |
| FileSystems.RecordLost | fs/inode.c:48 | syncing an inode whose number is the first free one and above 255 destroys the record of a live inode |
| FileSystems.CreatedWhole | fs/file.c:81-138 | file_create's entry and records keep bitmaps, inodes, tree and table in agreement if and only if the number is below 256, and add an empty file |
| FileSystems.MadeWhole | fs/fs.c:689-756 | the same for sys_mkdir, which adds a directory |
| FileSystems.WrittenWhole | fs/file.c:199-401 | a write with its record keeps the agreement and appends to one file |
| FileSystems.UnlinkedWhole | fs/fs.c:646-648 | deleting entry and inode of a file keeps the agreement and takes away that file |
| FileSystems.RemovedWhole | fs/dir.c:380-402 | dir_remove keeps the agreement if and only if the directory was not looked for in itself |
| FileSystems.EmptyIsDots | fs/dir.c:373-377 | the size is that of two entries if and only if no slot but the dots' is used |
| FileSystems.FileSystem.constructor | fs/fs.c:24-204 | after formatting and mounting everything agrees, nothing is open, and there are an empty root and no files |
| FileSystems.FileSystem.Open | fs/inode.c:76-116 | the inode is cached with what the table holds, shared and counted up if it was open before, otherwise put first with write_deny clear; everything agrees |
| FileSystems.FileSystem.Close | fs/inode.c:119-133 | the count goes down, and the last close takes exactly this inode out of the cache; everything agrees afterwards |
| FileSystems.FileSystem.CreateFile | fs/file.c:81-144 | the first free number gets an empty file with an entry in the parent, both records and the first place in the cache, with count one; everything agrees if and only if the number is below 256; otherwise a live inode's record is lost |
| FileSystems.FileSystem.MakeDirectory | fs/fs.c:689-759 | the same for an empty directory, which is not cached |
| FileSystems.FileSystem.Write | fs/file.c:199-401 | refused, halted or overrun exactly as file_write is; otherwise the file's contents grow by `buf`, the position is one before the end, tree and all other contents stay, and everything agrees, table and cache included |
| FileSystems.FileSystem.Read | fs/file.c:405-501 | returns the contents from the position on, as many bytes as asked for or left, and changes nothing |
| FileSystems.FileSystem.Unlink | fs/fs.c:621-651 | refused exactly if the file table has the inode; otherwise entry, contents and number are gone, and everything agrees if and only if the inode was not cached |
| FileSystems.FileSystem.RemoveDir | fs/fs.c:824-856 | answers 0 exactly for an empty directory; then entry and directory are gone, and everything agrees if and only if nobody had it open, as who finds it under "." does |
| FileSystems.FileSystem.RemoveOpened | fs/fs.c:847-851 | of which this is the removal and the close |
| FileSystems.RemoveWhileOpen | fs/fs.c:824-856 | opening an empty directory and removing it ends in a state in which they do not agree |
| Cwd.SysGetcwd | fs/fs.c:923-966 | the parent walk ends, the last-slash loop turns the names round, and the result is the path from the root to the directory |
| Cwd.GetChildDirName | fs/fs.c:878-918 | appends the name in the first slot with the child's number |
| Cwd.ChildSlot | fs/fs.c:859-907 | that slot is the child's own entry: dot entries, files and unused slots cannot match |
| Cwd.CwdRoundTrip | fs/fs.c:923-966 | looking up the printed path finds the directory, and the path is already washed |
| Cwd.PathIsUnique | fs/fs.c:246-305 | a clean path that finds a directory is the one printed for it |
| Cwd.LookupThenPrint | fs/fs.c:969-984 | a path that finds a directory prints as the washed path |
| Cwd.Process.SysChdir | fs/fs.c:969-984 | succeeds exactly for directories; then getcwd prints the washed path, which is no longer than the path given; otherwise the directory stays; for a path of several slashes the unset number becomes the directory |
| Pages.Pool.Palloc | kernel/memory.c:176-187 | takes the first free frame |
| Pages.Memory.PFree | kernel/memory.c:190-201 | clears the frame's bit in the pool its address belongs to |
| Pages.Memory.PageTableAdd | kernel/memory.c:204-231 | adds one mapping; a missing table is made from one kernel frame; halted by the assertion exactly if the entry is present |
| Pages.Memory.MallocPage | kernel/memory.c:240-262 | maps the lowest free run of pages to frames that were free, or changes nothing if there is no run; the run is the lowest in the bitmap except exactly when it leaves it, and then ends with the page behind; bitmap, page table and pool agree before and after in either case |
| Pages.Memory.MFreePage | kernel/memory.c:265-306 | unmaps the pages, clears their bits and gives exactly their frames back; every frame is at 0x102 or above, so no assertion on frame addresses fails |
| Pages.MappedOk | kernel/memory.c:249-261 | mapping free pages to free frames keeps a page mapped exactly when its bit is set, frames unshared and marked |
| Pages.UnmappedOk | kernel/memory.c:289-305 | so does unmapping |
| Pages.FreeUndoesMalloc | kernel/memory.c:240-306 | freeing an allocation restores bitmap, page table and frame pool |
| Pages.SpaceGrown | kernel/memory.c:249-261 | the agreement survives a run that ends with the page behind the map |
| Pages.SpaceShrunk | kernel/memory.c:289-305 | and giving such a run back |
| Arenas.BlockDescInit | kernel/memory.c:371-383 | the seven sizes 16 to 1024 and the numbers of blocks that fit a page behind the header, from 255 to 3 |
| Arenas.BlockInside | kernel/memory.c:386-394 | blocks lie behind the header and inside the page, and block2arena finds the page |
| Arenas.BlocksApart | kernel/memory.c:386-389 | different blocks of an arena do not overlap |
| Arenas.LiveApart | kernel/memory.c:397-486 | live allocations are as large as asked for and do not overlap |
| Arenas.LiveClearOfHeaders | kernel/memory.c:385-394 | no live allocation overlaps an arena's header |
| Arenas.NothingLeaks | kernel/memory.c:510-523 | when nothing is handed out, no arena stays mapped and all lists are empty |
| HeapSteps.TakeKeeps | kernel/memory.c:477-482 | popping a block keeps the invariant: counts equal free blocks, lists have no duplicates, no arena is wholly free |
| HeapSteps.NewSmallKeeps | kernel/memory.c:451-482 | so does making an arena and handing out its first block |
| HeapSteps.NewLargeKeeps | kernel/memory.c:426-435 | and a large allocation |
| HeapSteps.GiveKeeps | kernel/memory.c:512-515 | giving a block back to an arena still in use keeps it |
| HeapSteps.WhollyFree | kernel/memory.c:515-521 | when the count is full every block is on the list, so each is found there |
| HeapSteps.GiveLastKeeps | kernel/memory.c:515-522 | reclaiming a wholly free arena keeps it |
| HeapSteps.FreeLargeKeeps | kernel/memory.c:508-509 | so does freeing a large allocation |
| Heaps.KernelHeap.SysMalloc | kernel/memory.c:397-486 | null for size 0 or beyond the pool, or when no run of pages is free; halted exactly when size and header exceed 3839 pages; otherwise a new address is live with its size: above 1024 bytes behind the header of the lowest free run of the fewest pages that hold both, else the first block on the list of the smallest size that fits, or the first of a new arena; whole pages leave the address bitmap exactly when the scan does; heap and page invariants hold |
| Heaps.LeastPages | kernel/memory.c:427 | a large request takes the least number of pages that holds its bytes and the twelve of the header |
| Heaps.KernelHeap.ChooseDesc | kernel/memory.c:443-448 | the smallest class that fits |
| Heaps.KernelHeap.FillFreeList | kernel/memory.c:467-472 | all blocks go on the list, and the assertion that each is new there holds |
| Heaps.KernelHeap.SysFree | kernel/memory.c:489-527 | exactly the given allocation stops being live; its block goes to the end of its list, or the arena's pages go back when nothing else in it is in use, its other blocks leaving the list in order; the invariants hold and no assertion fails |
| Heaps.KernelHeap.DrainFreeList | kernel/memory.c:517-521 | takes exactly the arena's blocks off the list, each found there; the others keep their order |
| Heaps.KernelHeap.GetKernelPages | kernel/memory.c:310-316 | the pages of threads, page directories, bitmaps and pipes come from the same bitmap: new ones join those of others, and the heap's invariant holds |
| Heaps.KernelHeap.FreeKernelPages | kernel/memory.c:265-306 | and leave them |
| MemInit.Init | kernel/memory.c:45-108 | after boot the heap's invariant holds, nothing is handed out or mapped, the kernel's maps are clear, and the user pool's map is what the memory held; the kernel pool begins at frame 0x200, behind all page tables, the user pool right behind the kernel pool's pages, and neither reaches beyond the memory |
| MemInit.FreePages | kernel/memory.c:50-53 | the page count is exact from 2 MB to 258 MB; above it is taken modulo 65536, and below the subtraction wraps |
| MemInit.LeaveTheMap | kernel/memory.c:112-124 | on a machine of any size with a clear bit behind the map: once requests of any sizes have taken all pages but the last and one page is given back, an allocation of 5000 bytes ends with the page behind the map, and the heap's invariant holds |
| IoQueues.IoQueue.IoqFull | device/ioqueue.c:19-22 | full means 2047 bytes |
| IoQueues.IoQueue.IoqEmpty | device/ioqueue.c:25-28 | empty means no bytes |
| IoQueues.IoQueue.IoqLength | device/ioqueue.c:80-88 | the number of bytes held, under wrap-around |
| IoQueues.IoQueue.IoqGetchar | device/ioqueue.c:53-60 | takes the oldest byte |
| IoQueues.IoQueue.IoqPutchar | device/ioqueue.c:71-72 | adds the newest byte |
| IoQueues.IoQueue.PipeRead | shell/pipe.c:37-53 | returns the first bytes, min(count, length) of them, leaves the rest and never waits |
| IoQueues.IoQueue.PipeWrite | shell/pipe.c:56-70 | appends all of the request if it is less than 2048 minus the length; otherwise fills up to 2047 bytes and waits with exactly one byte left to put |
| IoQueues.IoQueue.PipeWriteOn | device/ioqueue.c:65-72 | a woken writer tests again and puts its byte, or waits on |
| IoQueues.PipeFifo | shell/pipe.c:37-70 | over any run, writers that wait and go on included, the bytes read are a prefix of the bytes written, the rest is in the pipe, and at most 2047 are held |
| IoQueues.PipeKeepsAll | shell/pipe.c:56-70 | over any run the bytes writers were granted are those put and those waited for, each once |
| IoQueues.ReadsAndResumes | shell/pipe.c:37-53 | over any run, a read takes exactly the min(count, length) oldest bytes; a writer that goes on puts its byte unless 2047 are there |
| IoQueues.WaitsAtFull | shell/pipe.c:61-69 | over any run, a write puts what fits into 2047 bytes, and leaves the next byte waiting if and only if it asks for the empty cell; then the pipe is full |
| IoQueues.PipeDrains | shell/pipe.c:37-53 | a reader that asks for enough gets all that was written |
| Threads.ScheduleKeeps | thread/thread.c:214-243 | no assertion fails, no empty queue is popped, afterwards one thread runs and the queue holds exactly the ready ones; nobody but the idle thread is parked or woken |
| Threads.BlockKeeps | thread/thread.c:260-269 | the same for parking the running thread |
| Threads.YieldKeeps | thread/thread.c:290-299 | and for yielding |
| Threads.UnblockKeeps | thread/thread.c:272-287 | a parked thread becomes ready and nothing else changes |
| Threads.StartKeeps | thread/thread.c:194-211 | a new thread is not on the queue yet |
| Threads.ExitKeeps | thread/thread.c:65-94 | a thread that is not running leaves the queue and the list of all threads, and nothing else changes |
| Threads.Scheduler.DoSchedule | thread/thread.c:214-243 | on the kernel's variables: the next thread is the one that was first on the queue, a running thread goes to its end as ready, a parked one stays where it is, and the idle thread runs if nobody else can |
| Threads.Scheduler.ThreadBlock | thread/thread.c:260-269 | the running thread gets the status asked for and the first of the queue runs, or the idle thread |
| Threads.Scheduler.ThreadUnblock | thread/thread.c:272-287 | the thread becomes ready at the front of the queue; nobody else is touched |
| Threads.Scheduler.ThreadYield | thread/thread.c:290-299 | the running thread goes to the end of the queue and the first one runs |
| Threads.Scheduler.ThreadStart | thread/thread.c:194-211 | the new thread is ready at the end of the queue |
| Threads.Scheduler.ThreadExit | thread/thread.c:65-88 | the thread leaves the list of all threads and its place in the queue; the others keep their order |
| Threads.SwitchTurns | thread/thread.c:214-243 | who runs next, and what becomes of queue and states, from any state in the middle of a switch |
| Threads.TickTurns | thread/thread.c:214-243 | a timer tick runs the thread at the front and puts the running one at the end; with an empty queue nothing changes |
| Threads.ParkTurns | thread/thread.c:260-269 | a thread that parks hands over to the front of the queue, or to the idle thread |
| Threads.EveryoneHasATurn | thread/thread.c:214-243 | after k ticks with nothing between them the k-th thread of the queue runs, those behind it have moved up, and those before it follow in the order they ran |
| Threads.FullRound | thread/thread.c:214-243 | after as many ticks as there are threads the first runs again and the queue is as it was |
| Threads.QueueEnds | thread/thread.c:194-287 | a woken thread goes to the front, a new one to the end |
| LockSafety.LockStepKeeps | thread/sync.c:23-83 | no assertion in lock_acquire, lock_release, sema_down or sema_up fails, wherever the thread was preempted |
| LockSafety.ParkKeeps | thread/sync.c:26-35 | a thread that finds the value zero is not on the list yet, joins it and is parked |
| LockSafety.UpWakeKeeps | thread/sync.c:44-58 | the first waiter leaves the list, is parked until then and becomes ready |
| LockSafety.UpHandsOn | thread/sync.c:44-58 | sema_up sets the value to one and the first waiter, if there is one, leaves the list and goes to the front of the ready queue; all others keep list, status and place |
| LockSafety.DownTakesOrParks | thread/sync.c:23-41 | a turn of sema_down takes the value from one to zero, or parks the thread at the end of the waiting list |
| LockSafety.StageSays | thread/sync.c:61-83 | what value, holder, count and nesting depth are at every point of lock_acquire and lock_release behind the semaphore |
| LockWaiting.UpRemembers | thread/sync.c:44-58 | if sema_up leaves waiters behind, it has made one ready |
| LockWaiting.NextRemembers | thread/sync.c:23-83 | no step of any thread, tick or key press forgets the waiters of a free lock |
| LockWaiting.NobodyForgotten | thread/sync.c:23-58 | no release is lost: in every run from boot, whenever a lock is free and threads wait for it, some thread in the loop of sema_down is ready or running |
| LockSafety.HolderTestDecides | thread/sync.c:62 | the unsynchronised test finds a thread at large to be the holder if and only if it has acquired the lock and not finally released it |
| LockSafety.MutualExclusion | thread/sync.c:61-83 | at most one thread is between a completed acquire and its final release, and the count is its nesting depth |
| LockSafety.OnOneList | thread/thread.c:278-284 | a thread is on the ready queue or one lock's waiting list, never on two |
| LockSafety.OneWaiterAtQueue | device/ioqueue.c:31-42 | at most one of producer and consumer is set; it names a parked thread that holds the queue's lock |
| LockSafety.RingTestKeeps | device/ioqueue.c:45-77 | waking the other side never meets a thread that is not parked |
| LockSafety.TransferMoves | device/ioqueue.c:45-77 | an empty queue sends a reader, and one with 2047 bytes a writer, to the lock; otherwise the length changes by one, the other side's slot is empty afterwards and the thread that was in it ready |
| LockSafety.KeyPutKeeps | device/keyboard.c:174-176 | neither does a key press, whatever thread it interrupts and wherever that stands |
| LockSafety.KeyMoves | device/keyboard.c:174-176 | a key press adds one byte and makes a waiting consumer ready, unless 2047 bytes are there; then nothing changes |
| LockSafety.ReapKeeps | thread/thread.c:65-94 | a finished thread is on no list and in no slot, so reaping it keeps the invariant |
| LockSafety.IoqWaitKeeps | device/ioqueue.c:31-35 | the slot is empty when a thread comes to wait |
| LockSafety.WaitParks | device/ioqueue.c:31-35 | the thread is in its side's slot and parked, and somebody else runs |
| LockSafety.NextKeeps | thread/sync.c:23-83 | every enabled step of every thread succeeds and keeps the invariant |
| LockSafety.BootedOk | thread/thread.c:388-401 | the invariant holds when main runs and init and the idle thread are ready |
| LockSafety.RunSafe | thread/thread.c:214-299 | in every run from boot on, with preemption, key presses, new and finished threads, the invariant holds and no enabled step can fail an assertion |
| Sync.Kernel.SemaDownTurn | thread/sync.c:23-41 | on the kernel's variables: with value zero the thread goes to the end of the waiting list and parks, with one it takes the semaphore; both assertions hold |
| Sync.Kernel.SemaUpTurn | thread/sync.c:44-58 | the value becomes one; the first waiter is off the list and ready at the front of the queue, all other lists and states are as before; both assertions hold |
| Sync.Kernel.BeginAcquire | thread/sync.c:61-62 | counts up exactly if the thread holds the lock already |
| Sync.Kernel.TakeLock | thread/sync.c:64-68 | sets the holder, then the count from zero to one; or counts up; the thread goes on where it called from |
| Sync.Kernel.BeginRelease | thread/sync.c:73-79 | the caller is the holder, and the count is at least one |
| Sync.Kernel.GiveLock | thread/sync.c:75-81 | counts down and goes on, or clears the holder and then the count |
| Sync.Kernel.IoqTest | device/ioqueue.c:45-77 | a full or empty queue sends the thread to the lock; otherwise the length changes by one, the other side's slot is empty afterwards and the thread in it is made ready |
| Sync.Kernel.WaitAtQueue | device/ioqueue.c:31-35 | the slot is empty, the thread enters it and parks, and the next one runs |
| Sync.Kernel.KeyboardPut | device/keyboard.c:174-176 | with 2047 bytes nothing changes; otherwise there is one more and a waiting consumer is ready at the front of the queue |
| WaitExit.AllList.SysWaitTurn | userprog/wait_exit.c:111-140 | takes the first hanging child off the list and answers with its pid and status; else -1 without children; else the process waits; nobody else is touched |
| WaitExit.AllList.SysExitAdopt | userprog/wait_exit.c:143-150 | panics without a parent; otherwise stores the status and hands the first child found to init, which keeps the invariant and leaves no child if and only if there was at most one |
| WaitExit.AllList.SysExitLeave | userprog/wait_exit.c:155-161 | fails exactly if nobody has the parent's pid; otherwise a waiting parent is woken, the process hangs and nobody else is touched; this keeps the invariant, and fails only for a process that was left behind |
| WaitExit.AllList.ListTraversal | lib/kernel/list.c:81-93 | the first process that meets the query |
| WaitExit.BootOk | thread/thread.c:393-399 | the invariant holds of init, main and the idle thread |
| WaitExit.ForkKeeps | userprog/fork.c:178-183 | a new process with a live parent keeps the invariant |
| WaitExit.WaitKeeps | userprog/wait_exit.c:111-140 | so does a turn of sys_wait |
| WaitExit.ExitKeeps | userprog/wait_exit.c:143-150 | so does the first step of exit, with any number of children |
| WaitExit.LeaveKeeps | userprog/wait_exit.c:155-161 | the second step finds the parent unless the process was left behind and nobody has the parent's pid |
| WaitExit.RunKeeps | userprog/wait_exit.c:77-162 | in every run no parent but init waits while a child of it hangs, and every exit is collected at most once, with its status |
| WaitExit.ExitLeavesNoChild | userprog/wait_exit.c:99-107 | an exiting process leaves no child behind if and only if it had at most one |
| WaitExit.WhoFindsNoParent | userprog/wait_exit.c:99-156 | in every run a process on its way out meets the null pointer if and only if its parent exited while it was not the parent's first child, and nobody has the parent's pid |
| WaitExit.LeftIs | userprog/wait_exit.c:99-107 | who is left behind is decided at the exits of the run |
| WaitExit.OneChildRun | userprog/wait_exit.c:143-162 | if every exiting process has at most one child, nobody meets it |
| WaitExit.SecondChildFindsNoParent | userprog/wait_exit.c:150-156 | a run from boot in which a process with two children exits and is reaped, and its second child meets it |
| WaitExit.InitMissesAtExit | userprog/wait_exit.c:111-162 | a step makes init wait while a child of it hangs if and only if it is the exit, while init waits, of a process whose first child hangs |
| WaitExit.InitMayMissAChild | userprog/wait_exit.c:150-158 | a run from boot that ends in such a state |
| Forks.CopyBodyStack3 | userprog/fork.c:48-90 | for every parent bitmap the child ends up mapping exactly the pages whose bits are set, each holding the bytes of the parent's page, whose own frames are as before; the parent's page directory is active again |
| Forks.CopyPage | userprog/fork.c:65-84 | one page is copied through the buffer into the child's address space |
| Forks.Machine.GetAPageWithoutOpVaddrBitmap | kernel/memory.c:544-555 | a free user frame is mapped in the active address space |
| Forks.ForkIsolates | userprog/fork.c:48-90 | besides, the child's frames were free before and are nobody else's, and its pages and the frame pool agree |
| Forks.ReleaseUserPages | userprog/wait_exit.c:27-49 | gives back exactly the frames of the pages below 3 GB and of the 768 tables they need |
| Forks.ExitUndoesFork | userprog/wait_exit.c:27-49 | after exit both frame pools are as before the fork |

## Left out

- Hardware: port input and output, the disk protocol, interrupts as such, segment tables, the stack switch, boot code. The disk is an array of sectors, the page directory in use a variable, time a preemption step.
- Shell commands, printing, program loading, scan codes and the screen.
- Out of memory and a full disk: the scan asserts on a full bitmap, so operations require free blocks, frames or numbers; the buffers the file system takes from the heap are taken to be available; the one of `file_write` has its size.
- The bitmaps' copies on disk: `bitmap_sync` is not part of this model. Two of the calls in `file_write` pass an offset from the wrong base.
- Memory contents of heap blocks, and clearing them.
- Concurrent file-system calls: the file system is modelled sequentially.
- `file_create`, `sys_mkdir`, `sys_unlink` and `sys_rmdir` begin, on the disk, once the path has been looked up; the lookup is modelled on the tree. Descriptors, the flags of `sys_open` and the slots of the file table are not part of this model.
- Path buffers: names of sixteen characters and more overrun a buffer in the source; lookup and getcwd are stated for shorter names.
- The heap of user processes, whose descriptors are reset by fork while copied arenas keep the old ones.
- `thread_exit` of the running thread itself, which nothing in the kernel calls.
- A working directory that is removed while a process is in it: its inode number then names nothing, or something new.
- A partition so large that the masking of the block bitmap's tail leaves the buffer, or at the very end of the disk.
- Liveness under all schedules: ticks alone give everyone a turn and a free lock with waiters has somebody on the way in, but nothing says that a certain thread gets the lock in the end, or its byte at a queue.
- The bitmap pages of a process's address space, which are rounded up when made and down when given back.
- Arrays inside C structures, such as an inode's block list, are sequence-valued fields; nothing else points into them.
- Bitmaps.Bitmap.Scan: takes a map that is not full, since the source asserts that.
- Files.FileWrite: after an overrun nothing is said of the heap, since it depends on what lay behind the buffer. Counts are below 3 GB, the size of a user's address space, so sums do not wrap; the root directory is not written through it.
- DirOps.SyncDirEntry: covers directories with an unused slot in the twelve direct blocks; beyond them the source loads the table too late.
- DirDelete.DeleteDirEntry: covers directories without an indirect table; with one, a counting loop of the source does not end.
- DirOps.SearchDirEntry: takes names that are not empty and shorter than an entry.
- FileSystems.FileSystem.CreateFile: covers directories with an unused slot in the twelve direct blocks, as DirOps.SyncDirEntry does; so does FileSystems.FileSystem.MakeDirectory.
- FileSystems.FileSystem.Write: after a panic or an overrun nothing is said of the file system as a whole.
- FileSystems.FileSystem.Unlink: an entry of the file table is for an inode; those of pipes stand for a queue, part of which the source compares as a number.
- Trees.SearchFile: works on the slots of directories; opening and closing the inodes on the way is not part of it.
- Cwd.SysGetcwd: the path is taken to fit its buffer, as it does for every directory that SysChdir has reached.
- TreeOps.FileTree.SysRmdir: where a path of several slashes gives a number that no directory has, the answer is Astray and what follows is not modelled.
- Pages.Memory.MallocPage: is the kernel's case, where all page tables exist.
- MemInit.Init: the loader's tables are taken to be empty above the first megabyte, as fresh memory makes them; the loader clears only the page directory.
- Heaps.KernelHeap.SysMalloc: is the kernel's case; the memory behind the bitmap and the page behind the heap's are taken to be used by nothing else.
- Heaps.KernelHeap.SysFree: takes an address that is live, as every caller must.
- Threads.Scheduler.ThreadExit: the source reads the pid from the control block after giving back its page; what it finds there, as a rule the old bytes, is taken to be the pid.
- LockSafety.NextKeeps: covers semaphores used as locks; the disk's semaphore is raised by an interrupt. A process that is reaped is taken to hold no lock, as no system call ends with one held.
- IoQueues.IoQueue.PipeWrite: where it waits, the method ends and PipeWriteOn goes on from there; when a waiting thread is woken is in LockSafety.
- WaitExit.RunKeeps: a new pid is any that is not in use; the pid bitmap is not modelled, nor is blocking inside the release of resources other than as the gap between the two steps of exit.
- Forks.ExitUndoesFork: is stated for a child that allocates and frees nothing between fork and exit; Forks.ReleaseUserPages itself covers any address space.
- Forks.CopyBodyStack3: the copies of the control block and of the kernel stack are not modelled.
