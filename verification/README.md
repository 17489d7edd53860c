# A verified model of a small RISC-V kernel

The kernel has three parts that carry real invariants, and the model has one
group of files for each of them, plus the list they share.

**File system** (`Bytes`, `FsState`, `FsFile`, `FsInvariant`, `FileSystem`,
`FsDirectory`, `FsDirOps`, `FsTree`, `FsHistory`, `Directory`, `FsRun`,
`FsLinks`, `FsLeaks`). The class `FileSystem` holds the disk areas and the
static buffers as arrays, and its methods rewrite them in the order the kernel
does: bitmaps are read, changed and written back, inodes pass through a
one-sector buffer, index blocks and data through a one-block buffer. `View()` is
the state they stand for. Every pointer of an index tree is a slot; ownership
says that no two slots name one block and that every named block is marked used.
On this rest the content of a file (a byte string), the entries of a directory
(first-fit, with stale inode numbers left behind) and the tree of directories.
`FsRun` puts the calls together: over any history of reads, writes, seeks,
mkdir, touch, rmdir and rm, on any files and directories, the file system
behaves as a flat store of byte strings and names. `FsLeaks` counts the used
blocks that no pointer names.

**Virtual memory** (`PteBits`, `VirtualMemory`, `PagingCalls`, `Victims`,
`SwapArea`, `Permissions`, `Processes`, `CopyOnWrite`, `CowTables`,
`SharedTables`, `SharedProcesses`). `PteBits` works on 64-bit words.
`VirtualMemory` has three-level tables in memory frames, the page list of a
process, its bound, and the swap area; a page's content is what the walk finds,
in memory or in the SD card, and swapping does not change it over any run.
`PagingCalls` holds the imperative form. `Victims` says which pages may be
swapped and exactly when a fault stops, `SwapArea` where they lie, `Permissions`
that they keep their flags. `Processes` runs any number of processes over one
memory and swap area. `CopyOnWrite` models the shared frames of one process over
snapshots and store faults, on the page map that the tables implement
(`CowTables`); `SharedTables` does the same steps on the tables themselves, and
`SharedProcesses` runs any number of such processes.

**Scheduling and blocking** (`Scheduler`, `Syscalls`, `Barriers`, `Wakeups`,
`Bypass`, `LockOwners`, `CallEffects`, `KernelCalls`, `Mailbox`, `MailboxWakes`,
`MailboxCalls`, `Ring`, `RingQueues`). A step runs from kernel entry, or from
resumption, to the next call of the scheduler or to the return; steps of any
number of processes on any number of cores interleave freely. The invariant is
the queue partition, the process numbers and the lock discipline; `Wakeups` adds
that nobody leaves a wait queue without the reason it waited for, `Bypass` that
a ready process is picked in bounded time, `LockOwners` which locks have a live
owner, and `CallEffects` what a call does to the cores. The mailbox is a
protocol of its own: runs of sends, receives, resumptions and kills. `Ring` has
the intrusive lists with their pointers, and `RingQueues` shows that they are
the scheduler's queues.

A method of a class is proved against a function of the old state, and what the
kernel promises is proved of that function. Where the kernel stops with an
assertion for lack of a resource, the method returns `None` and says that the
resource was exhausted.

## What is not as intended

Some properties one would expect do not hold of the code. Each has its exact
condition, or a run that shows it.

- Removing a file releases its first block only. Everything else stays in order, but
  its further blocks stay marked used with no pointer to them: the bitmap agrees with
  the block counts if and only if every file removed so far had one block
  (`FsHistory.RemoveBalance`, `FsLeaks.HistoryConserved`; `FsLeaks.LongFileLeaks` says
  which files do leak).
- Removing a file lowers its directory's link count, which creating it had not
  raised (`FsHistory.RemoveLinks`). So `rmdir` accepts an empty directory if and
  only if it has one link (`FsLinks.RmdirIff`): over any history, if and only if
  the number of files removed from it is a multiple of 2^32
  (`FsLinks.HistoryRmdir`; `FsLinks.FreshRefused` is a run that ends refused).
- A descriptor open for reading and writing is refused a seek that takes its read
  offset past the end, and extends its file only by a relative seek that keeps the
  read offset within the file and takes the write offset past its end
  (`FileSystems.ReadWriteSeek`); a write-only one extends it by any seek past the
  end (`FileSystems.WriteOnlySeek`).
- The copy of copy-on-write copies the old frame onto itself
  (`CopyOnWrite.CopyKept`, `CopyOnWrite.CopyLost`).
- A page that has left sharing is swapped by the page recorded in its node, which
  is unfilled or another's: swapping a node is sound if and only if that page is
  the one its frame belongs to (`CopyOnWrite.SwapSoundIff`), which after a store
  fault holds in the cases of `CopyOnWrite.LeftSharing` only.
- A mailbox loses wakeups when messages have different lengths or a kill takes a
  woken process whose place nobody takes. With kills that do no such harm it can
  lose one if and only if there are two lengths (`Mailboxes.NeverStarvesIff`); a
  kill keeps the promise if and only if it is harmless (`Mailboxes.KillLiveIff`,
  `Mailboxes.LastKillIff`; `Mailboxes.KillLosesWakeup` is a run).
- Signalling a condition whose lock is free makes the waiter the lock's owner but
  puts it on no queue (`Barriers.SignalSound`).
- A process that exits keeps its locks; only killing hands them on. A call leaves
  every taken lock with a live owner if and only if it is not an exit by a process
  that claims one (`LockOwners.StepHeld`).
- Killing a process at a barrier leaves a barrier for one process fewer
  (`Barriers.KillShrinksBarrier`).
- A process killed while another core runs it goes on running, and if it then
  sleeps the invariant is broken (`Barriers.SleepSound`): once awake it is marked
  running on no core (`Barriers.ZombieLost`).

## Assumptions

- Offset plus length of a read or a write stays below 2^32, and lengths are not
  negative. The guard against passing 4 GB (`kernel/fs/fs.c:505`) compares after
  32-bit addition and never fires, so the model does not have it.
- Names have at most 23 characters. No hard links; "." and ".." are not removed;
  a file is not removed while it is open.
- Fewer than 300 page nodes and fewer than 1792 swap slots are used; the tables'
  kernel entries and user entries do not overlap.
- No recursive acquire; the owner of a lock releases it, waits with it and
  signals with it; all waiters of a condition use one lock; a signalled condition
  has a waiter. A slot of the process table is not reused while a core still runs
  the process killed in it, and such a process makes no further call.

## Model

| member | source | states |
|---|---|---|
| FsFile.PageSlotBounds | kernel/fs/fs.c:1005-1019 | for every 32-bit offset the split of its page number stays inside the pointer tables, and never reaches the second double-indirect pointer or the triple-indirect level |
| FsFile.PageSlotInOrder | kernel/fs/fs.c:1005-1104 | page n of a file is its n-th data block, counting along the pointers of the inode and under each along the words of its index blocks |
| FsFile.PageSlotInjective | kernel/fs/fs.c:1024-1104 | two pages share a slot of an index tree only if they are the same page of the same file |
| FsState.GrowPtr | kernel/fs/fs.c:1028-1061 | linking a fresh block changes the one pointer that was a hole; every other pointer of every file stays |
| FsState.GrowOwned | kernel/fs/fs.c:1054-1061 | after linking a free block no block has two owners, every pointer names a used block, and no further block is without an owner |
| FsFile.GrowBytes | kernel/fs/fs.c:1003-1170 | filling a hole changes no byte of any file |
| FsFile.PutBlockBytes | kernel/fs/fs.c:497-528 | rewriting the block of one page changes the bytes of that page of that file and no others |
| FsInvariant.GrowCore | kernel/fs/fs.c:1024-1104 | a growth step keeps ownership, the block counts and every record, and leaks no block |
| FsInvariant.LeakedCount | kernel/fs/fs.c:720-825 | the block map has as many used entries as the inodes count and one more for each used block that no pointer names; the two agree if and only if there is none |
| FileSystems.FileSystem.GetInode | kernel/fs/fs.c:746-759 | the buffer holds the inode, at its place in the sector, and the file system is unchanged |
| FileSystems.FileSystem.WriteInode | kernel/fs/fs.c:742-745 | writing the buffered sector back leaves nothing waiting in the buffer and changes nothing a reader sees |
| FileSystems.FileSystem.AllocBlock | kernel/fs/fs.c:796-807 | the lowest free block is marked used in memory and on disk; it stops only when every block is used |
| FileSystems.FileSystem.LocateInInode | kernel/fs/fs.c:1026-1034 | a pointer of the inode keeps its block, or a hole gets a cleared one; trees only grow and no file changes its bytes |
| FileSystems.FileSystem.LocateInBlock | kernel/fs/fs.c:1050-1061 | a word of an index block, read through the shared buffer, keeps its block, or a hole gets a cleared one; trees only grow and no file changes its bytes |
| FileSystems.FileSystem.LocateSingle | kernel/fs/fs.c:1037-1062 | the single-indirect level finds or makes the block of the page |
| FileSystems.FileSystem.LocateDouble | kernel/fs/fs.c:1064-1104 | the double-indirect level finds or makes the block of the page, through two index blocks |
| FileSystems.FileSystem.ByteLocate | kernel/fs/fs.c:1003-1170 | the answer is the block and place of the offset; the tree grew only as needed, all older mappings and all bytes stay, and the inode is on disk; it stops only for a page without a block when all blocks are used |
| FileSystems.FileSystem.ReadPiece | kernel/fs/fs.c:463-495 | one round copies the bytes up to the end of the page from the file into its place in the caller's buffer |
| FileSystems.FileSystem.ReadAll | kernel/fs/fs.c:463-495 | the rounds together deliver exactly the bytes asked for |
| FileSystems.FileSystem.DoFread | kernel/fs/fs.c:463-495 | an allowed read returns exactly the slice at the read offset and moves it; no file changes even when holes are given blocks; a refused one changes nothing; it stops only if the range has a hole and all blocks are used |
| FileSystems.FileSystem.WriteAll | kernel/fs/fs.c:497-528 | the rounds together put exactly the caller's bytes in place |
| FileSystems.FileSystem.DoFwrite | kernel/fs/fs.c:497-528 | a write splices its bytes into the file at the write offset, extends the size, leaves every other file and directory, and keeps the whole invariant; a refused one changes nothing; it stops only if the range has a page without a block and all blocks are used |
| FileSystems.FileSystem.ExtendTo | kernel/fs/fs.c:645-701 | moving the end past the size splices nothing at the new end |
| FileSystems.FileSystem.DoLseek | kernel/fs/fs.c:645-701 | the offsets move in 32-bit arithmetic or the call is refused; the write offset past the end extends the file with zeros, and a descriptor that may not write changes nothing; it stops only if it extends to a page without a block when all blocks are used |
| FileSystems.ModeBits | kernel/fs/fs.c:466-505 | for modes 1, 2 and 3 a read of bytes the file has is carried out if and only if bit 0 is set, and a write if and only if bit 1 is, the bits a seek tests |
| FileSystems.ModesAgree | kernel/fs/fs.c:466-696 | for any mode, the guard of a read agrees with the bit a seek tests if and only if the mode is odd or 2, that of a write if and only if it has bit 1 or is 1 |
| FileSystems.SeekNumbers | kernel/fs/fs.c:656-696 | a seek adds the offset in 32 bits to 0, to where the descriptor is, or to the size, for each offset its mode moves, and is refused if and only if that takes the read offset past the size |
| FileSystems.SeekWithin | kernel/fs/fs.c:656-696 | a seek from the start to a place within the file succeeds and both offsets are there |
| FileSystems.ReadWriteSeek | kernel/fs/fs.c:656-696 | a descriptor that may read and write extends its file by a seek if and only if it seeks from where it is, to a place within the file from the read offset and past its end from the write offset |
| FileSystems.ReadWriteSeeks | kernel/fs/fs.c:656-696 | a read-write descriptor that extends a file of 100 bytes by 50, and the seeks to the same place that are refused |
| FileSystems.WriteOnlySeek | kernel/fs/fs.c:675-696 | a descriptor that may only write is refused no seek |
| FsInvariant.FinishRead | kernel/fs/fs.c:463-495 | a read that only grew the tree leaves the state sound and the file's content as it was |
| FsInvariant.WrittenStep | kernel/fs/fs.c:497-528 | each further piece extends the part of the request that is in place |
| FsInvariant.FinishWrite | kernel/fs/fs.c:497-528 | setting the size last makes the splice complete, and bytes past the new end are zero again |
| FsInvariant.ReadBack | kernel/fs/fs.c:463-528 | reading what was just written returns it |
| FsInvariant.WriteElsewhere | kernel/fs/fs.c:497-528 | a write leaves the content of every other inode equal |
| FsInvariant.ExtendAppendsZeros | kernel/fs/fs.c:645-701 | extending is appending zeros |
| FsDirectory.SlotsOfPut | kernel/fs/fs.c:902-930 | storing one entry in a directory block leaves the other entries as they were |
| FsDirectory.DentryBytes | kernel/fs/fs.c:902-930 | on disk an entry is its kind and its inode number, four bytes each with the lowest first, and then the name |
| FsDirectory.CStringOfPadded | kernel/fs/fs.c:921 | a name copied without its NUL onto a cleared field reads back as that name |
| FsDirectory.LiveCountMonotone | kernel/fs/fs.c:860-866 | once as many live entries were met as there are, no later entry is live |
| DirectoryOps.ScanEntries | kernel/fs/fs.c:857-867 | the scan with its early exit answers as a scan of all 128 entries |
| DirectoryOps.SearchDentry | kernel/fs/fs.c:851-868 | the inode of the first entry that matches kind and name, or -1 when none does |
| DirectoryOps.CreateDentry | kernel/fs/fs.c:902-930 | the first free entry gets name, kind and inode and the counters go up; it stops only when no entry is free |
| FsTree.DirShapeInsert | kernel/fs/fs.c:914-924 | first-fit keeps every stale inode number behind the entry in use and keeps names unique within a kind |
| FsTree.DirShapeDrop | kernel/fs/fs.c:968-975 | freeing an entry, which leaves its inode number behind, keeps stale numbers behind the entry in use and names unique |
| FsTree.FirstByInode | kernel/fs/fs.c:965-975 | the first entry with the inode number of an entry in use is that entry, though the search ignores the kind |
| DirectoryOps.FindByInode | kernel/fs/fs.c:968-975 | the loop stops at the entry in use |
| DirectoryOps.UnlinkEntry | kernel/fs/fs.c:958-977 | exactly that entry is freed and the counters go down |
| DirectoryOps.DeleteDentry | kernel/fs/fs.c:931-979 | refuses a directory with entries or links; otherwise frees the entry in use that names the inode, and says whether the inode is to go too |
| DirectoryOps.AllocInode | kernel/fs/fs.c:720-731 | the lowest free inode number is marked; it stops only when none is free |
| DirectoryOps.FreeInodeMap | kernel/fs/fs.c:732-737 | the inode number is free again and nothing else changed |
| DirectoryOps.ReleaseBlock | kernel/fs/fs.c:816-825 | the block is free and cleared and nothing else changed |
| DirectoryOps.CreateInode | kernel/fs/fs.c:760-783 | the record of a new file or directory, written to disk |
| DirectoryOps.CreateDirBlock | kernel/fs/fs.c:826-840 | the block holds "." and ".." and is otherwise zero |
| DirectoryOps.IsNameIllegal | kernel/fs/fs.c:987-1002 | true exactly when some character is outside the permitted ones |
| DirectoryOps.LegalAlphabet | kernel/fs/fs.c:987-1002 | the characters of a name, spelled out: letters, digits, minus, dot and underscore |
| DirectoryOps.CreateNode | kernel/fs/fs.c:215-226 | inode, entry, block and record together make a sound tree with one new node and every file kept |
| DirectoryOps.DoMkdir | kernel/fs/fs.c:199-226 | -1 exactly when the name is illegal or names a directory, with nothing changed; otherwise a new directory in a sound tree |
| DirectoryOps.DoTouch | kernel/fs/fs.c:366-389 | -1 exactly when the name is illegal or names a file; otherwise a new empty file in a sound tree |
| DirectoryOps.DoRmdir | kernel/fs/fs.c:250-279 | 0 exactly when the name leads to an empty directory with one link, which is then gone from a sound tree; otherwise nothing changed |
| DirectoryOps.DoRm | kernel/fs/fs.c:615-643 | -1 exactly when no file has the name; otherwise its entry, record and first block are released, its other blocks stay marked used, and the tree and every other file are kept, whatever the size of the file |
| DirectoryOps.DoMkfs | kernel/fs/fs.c:73-111 | whatever the disk held, it is the fresh file system afterwards, and sound |
| DirectoryOps.Format | kernel/fs/fs.c:19-111 | a disk can be set up and formatted: the invariant of all calls is met by an object |
| DirectoryOps.FreshInv | kernel/fs/fs.c:19-111 | the fresh file system satisfies ownership, conservation and zero tails, with no block leaked |
| DirectoryOps.FreshTreeInv | kernel/fs/fs.c:19-111 | the fresh file system is a tree of the root alone, with right link counts |
| FsTree.InsertKeepsTree | kernel/fs/fs.c:176-226 | a creation keeps all directories one tree: every node but the root has one name, ".." names the parent one level up, `file_num` counts the entries |
| FsTree.RemoveKeepsTree | kernel/fs/fs.c:228-279 | a removal of an entry and its node keeps all directories one tree |
| FsTree.RootReached | kernel/fs/fs.c:826-840 | from every live directory ".." followed often enough leads to the root |
| FsTree.EmptyHasNoEntry | kernel/fs/fs.c:943 | a directory counting two entries has none but the dots |
| FsDirOps.NewRecord | kernel/fs/fs.c:760-783 | a new node may be read and written, has one link and one block; a directory counts its two dots and a block of bytes, a file nothing |
| FsDirOps.NodeStepHolds | kernel/fs/fs.c:720-783 | making a node keeps the invariant and every file |
| FsDirOps.EntryStepHolds | kernel/fs/fs.c:902-979 | storing an entry keeps the blocks and every file, and changes one directory in one place |
| FsDirOps.FreeStepHolds | kernel/fs/fs.c:816-825 | releasing a node keeps the invariant and every other file, clears its first block, and leaves its other blocks marked used with nobody naming them |
| FsDirOps.RemoveConserves | kernel/fs/fs.c:594-643 | releasing a node leaks one block fewer than it had, so the block map stays balanced if and only if it was and the node had one block |
| FsHistory.InsertTree | kernel/fs/fs.c:176-226 | creating keeps the whole invariant and every file |
| FsHistory.RemoveTree | kernel/fs/fs.c:228-279 | removing a file of any size or an empty directory keeps the whole invariant and every other file; the blocks it leaks are all of the node's but the first |
| FsHistory.EntryCanBeRemoved | kernel/fs/fs.c:939-955 | every entry of a file or of an empty directory can be removed |
| FsHistory.RemoveBalance | kernel/fs/fs.c:594-643 | a removal keeps the bitmap and the block counts balanced if and only if they were and the node had one block, as a directory always has; otherwise one block leaks for each further block |
| FsHistory.RoundTrip | kernel/fs/fs.c:176-279 | creating and then removing a fresh name restores both bitmaps and every inode record, but for one link of the directory when it was a file |
| FsHistory.RoundTripNames | kernel/fs/fs.c:176-279 | creating and then removing a fresh name restores the names of every directory and the bytes of every other file |
| FsHistory.InsertLinks | kernel/fs/fs.c:908-911 | link counts stay one plus the number of subdirectories over a creation |
| FsHistory.RemoveLinks | kernel/fs/fs.c:959-963 | link counts stay one plus the number of subdirectories over a removal if and only if a directory was removed |
| FsHistory.RemovableIffEmpty | kernel/fs/fs.c:942-946 | with right link counts the test of rmdir holds if and only if the directory is empty |
| FsHistory.EmptyIffTwo | kernel/fs/fs.c:943 | a directory counts two entries if and only if it is empty, whatever its links |
| FsLinks.RmdirIff | kernel/fs/fs.c:942-946 | rmdir accepts the directory a name leads to if and only if it is empty and has one link |
| FsLinks.HistoryLinks | kernel/fs/fs.c:908-963 | over any history a directory has one link, one more for each directory in it, and one less for each file removed from it, in the width of the field |
| FsLinks.HistoryRmdir | kernel/fs/fs.c:939-963 | over any history rmdir accepts an empty directory if and only if the number of files removed from it is a multiple of 2^32 |
| FsLinks.RefusedAfterRm | kernel/fs/fs.c:176-643 | mkdir of a directory, touch and rm of a file in it: the directory is empty, has no link, and rmdir refuses it |
| FsLinks.FreshRefused | kernel/fs/fs.c:176-643 | such a run on a freshly made disk |
| FsHistory.WriteKeepsTree | kernel/fs/fs.c:497-528 | a write or an extending seek leaves the tree as it was |
| FsHistory.ReadKeepsTree | kernel/fs/fs.c:463-495 | a read leaves the tree as it was, whatever blocks it allocates |
| FsRuns.LinksUnique | kernel/fs/fs.c:851-979 | in a sound state a name of one kind leads to one inode and an inode has one name |
| FsRuns.CallRefines | kernel/fs/fs.c:176-701 | every successful call is a step of a flat store of byte strings and names, allowed there and with the same result |
| FsRuns.HistoryRefines | kernel/fs/fs.c:176-701 | over any history of such calls the file system stays sound and behaves as the flat store |
| FsRuns.FreshFlat | kernel/fs/fs.c:19-111 | a fresh file system is the empty flat store |
| FsRuns.CreatedIsCall | kernel/fs/fs.c:176-226 | what mkdir and touch promise is a creation of the flat store |
| FsRuns.DeletedIsCall | kernel/fs/fs.c:228-279 | what rmdir and rm promise is a deletion of the flat store, whatever the size of the file |
| FsLeaks.CallLeaks | kernel/fs/fs.c:176-701 | no successful call but a removal leaks a block, and none gets a leaked block back |
| FsLeaks.HistoryLeaks | kernel/fs/fs.c:176-701 | over any history the leaked blocks are those there were and all but one of the blocks of every node removed |
| FsLeaks.HistoryConserved | kernel/fs/fs.c:594-643 | over any history from a fresh disk the bitmap agrees with the block counts if and only if every file removed had one block when it was |
| FsLeaks.LongFileLeaks | kernel/fs/fs.c:594-643 | removing a file with a byte other than zero past its first page leaks a block |
| VirtualMemory.WalkFinds | kernel/mm/mm.c:314-345 | the walk answers exactly for the pages that have a content, in memory or in the SD card, with the address of their entry |
| VirtualMemory.SamePage | include/os/mm.h:79-81 | two addresses have one entry if and only if they lie in one page |
| VirtualMemory.PutLeafEntry | kernel/mm/mm.c:171-182 | rewriting the entry of a page changes no other entry at any level |
| VirtualMemory.LinkTableEntry | kernel/mm/mm.c:148-169 | linking a cleared table changes one entry; what lies under it is empty |
| VirtualMemory.PageNotTable | kernel/mm/mm.c:171-182 | the frame of a page is never a table |
| VirtualMemory.SwapOutContent | kernel/mm/mm.c:388-405 | swapping a page out changes the content of no page |
| VirtualMemory.SwapInContent | kernel/mm/mm.c:414-439 | swapping a page in changes the content of no page |
| VirtualMemory.SwappedPageNode | kernel/mm/mm.c:418-431 | a page in the SD card has one node, not in memory and with kva 0: both assertions of swap_to_mem hold |
| VirtualMemory.TakeHolds | kernel/mm/mm.c:12-59 | taking a frame, by swapping or not, changes the content of no page and gives a frame nobody names |
| VirtualMemory.AddTableContent | kernel/mm/mm.c:148-156 | a new table changes the content of no page |
| VirtualMemory.AddPageContent | kernel/mm/mm.c:174-182 | a new page holds what its frame held; no other page changes |
| VirtualMemory.AllocPageMaps | kernel/mm/mm.c:136-185 | afterwards the walk finds the returned frame; every other page keeps its content and its frame, or is in the SD card; one that was mapped stays as it is |
| VirtualMemory.FaultMaps | kernel/irq/irq.c:103-138 | a fault maps the page: back from the SD card as it was, or new; all other pages keep their content |
| VirtualMemory.SdMeansFull | kernel/irq/irq.c:111-116 | a page in the SD card means the process is at its bound, so the handler always gets its frame from do_swap |
| VirtualMemory.VictimIsPage | kernel/mm/mm.c:441-455 | a victim's frame is that page's alone: never the root, a table or another page |
| VirtualMemory.RunTransparent | kernel/irq/irq.c:103-138 | over any run of faults, mappings and stores a page that is there keeps its content but for the stores to it, wherever swapping put it |
| VirtualMemory.OthersKept | kernel/mm/mm.c:388-455 | a step of one process keeps every other process's tables, nodes and contents |
| Processes.MoveTogether | kernel/irq/irq.c:103-138 | any step of any process, and any start of one, keeps all processes in order and their frames apart |
| Processes.RunIsolated | kernel/irq/irq.c:103-138 | over any run of any number of processes sharing memory, sector counter and SD area, a page of one of them changes by its own stores only |
| VirtualMemory.NewSpaceInv | kernel/sched/sched.c:151-162 | the address space of a new process satisfies the invariant and has no user page |
| Victims.TakeCapacity | kernel/mm/mm.c:12-59 | taking a frame stops if and only if the bound is reached and no page may be swapped; otherwise it uses up one of the frames the process can still get |
| Victims.AllocPageCapacity | kernel/mm/mm.c:136-185 | mapping a missing page stops if and only if the absent tables and the page are more than the frames the process can still get; it uses up the tables' frames, and the page's unless it may be swapped |
| Victims.FaultCapacity | kernel/irq/irq.c:103-138 | a fault stops if and only if the absent tables and the page are more than those frames, and uses up the tables' only: its page can be swapped out in its turn |
| Victims.FaultSwapable | kernel/irq/irq.c:103-138 | after a fault the page's node may be swapped out, records the faulting address, and is the only one in memory with the frame the walk finds |
| Victims.RunCapacity | kernel/irq/irq.c:103-138 | over any run a process can get as many frames as at first, less those of tables made and of pages mapped to stay |
| Victims.RunFaultGoes | kernel/irq/irq.c:103-138 | over any run a fault on a page in the SD card goes through as long as some page that a fault brought in is in memory |
| Victims.NewCapacity | kernel/sched/sched.c:151-162 | a new process can get its bound less the root table and the kernel stack |
| SwapArea.Sectors | kernel/mm/mm.c:347-353 | the sectors of swapped pages lie between sector 2048 and the file system, and no two pages have one in common |
| SwapArea.TakeClears | kernel/mm/mm.c:388-405 | at the bound a frame that is taken is all zeros |
| SwapArea.FaultZeros | kernel/mm/mm.c:388-405 | at its bound a process that touches a new page finds zeros there, not what another page held |
| Permissions.StepFlags | kernel/mm/mm.c:136-439 | every fault, mapping and store keeps the permissions of every page, wherever swapping puts it, and gives a new one those that pages are mapped with |
| Permissions.RunFlags | kernel/mm/mm.c:136-439 | over any run a page keeps its permissions, in memory and in the SD card |
| Permissions.RunWritable | kernel/mm/mm.c:136-439 | over any run from an address space without pages every page is writable, as the copy-on-write model takes them before a snapshot |
| PagingCalls.AddressSpace.constructor | kernel/sched/sched.c:151-162 | an address space with a root table and a kernel stack, with the invariant and no user page |
| PagingCalls.AddressSpace.ClearFrame | arch/riscv/include/pgtable.h:122-129 | every word of the frame is zero and no other frame changed |
| PagingCalls.AddressSpace.Check | kernel/mm/mm.c:314-345 | pte_checker answers as the walk |
| PagingCalls.AddressSpace.PteOf | kernel/mm/mm.c:355-386 | get_pte never stops for a page in memory and gives its entry |
| PagingCalls.AddressSpace.FirstSwapable | kernel/mm/mm.c:441-455 | the first node on the list that may be swapped |
| PagingCalls.AddressSpace.FindByPte | kernel/mm/mm.c:419-427 | the first node with that entry address |
| PagingCalls.AddressSpace.SwapToSd | kernel/mm/mm.c:388-405 | bit by bit, writing before clearing, the state is that of SwapOut and the result the freed frame |
| PagingCalls.AddressSpace.DoSwap | kernel/mm/mm.c:407-412 | the first swapable page goes; it stops exactly when there is none |
| PagingCalls.AddressSpace.AppendNode | kernel/mm/mm.c:40-56 | an unused node joins the end of the list |
| PagingCalls.AddressSpace.AllocPagetable | kernel/mm/mm.c:12-59 | a frame within the bound and a node for it |
| PagingCalls.AddressSpace.EnsureTable | kernel/mm/mm.c:145-169 | the next-level table, made, cleared and linked when missing |
| PagingCalls.AddressSpace.PlacePage | kernel/mm/mm.c:171-182 | a frame, a node and an entry for a missing page |
| PagingCalls.AddressSpace.AllocPageHelper | kernel/mm/mm.c:136-185 | the three levels together are AllocPage |
| PagingCalls.AddressSpace.SwapToMem | kernel/mm/mm.c:414-439 | the list walk, the read and the flag changes together are SwapIn |
| PagingCalls.AddressSpace.HandleFault | kernel/irq/irq.c:103-138 | the fault handler, on a page not in memory, is Fault: it stops if and only if the absent tables and the page are more than the frames the process can still get, and otherwise the page may be swapped out in its turn |
| PteBits.SplitLossless | arch/riscv/include/pgtable.h:90-115 | the parts of an entry determine it |
| PteBits.PfnRoundTrip | arch/riscv/include/pgtable.h:96-105 | a frame number set and read back is itself if and only if it has at most 44 bits |
| PteBits.PaRoundTrip | arch/riscv/include/pgtable.h:90-105 | a page-aligned physical address stored in an entry reads back as itself |
| PteBits.SetPfnSplit | arch/riscv/include/pgtable.h:100-105 | set_pfn keeps the ten attribute bits and clears the ten at the top |
| PteBits.CleanIsClear | arch/riscv/include/pgtable.h:117-120 | the exclusive or clears the mask if and only if every bit of it was set |
| PteBits.MaskPlaces | arch/riscv/include/pgtable.h:55-66 | the flags lie where the privileged architecture puts them, that of a swapped page in the upper software bit |
| PteBits.SetWord | arch/riscv/include/pgtable.h:112-115 | set_attribute of any one flag of a word sets that field of its entry and no other |
| PteBits.CleanWord | arch/riscv/include/pgtable.h:117-120 | clean_attribute of any one flag of a word flips that field of its entry and no other |
| PteBits.SetPfnEntry | arch/riscv/include/pgtable.h:100-105 | on words, set_pfn is the change of the entry that the page tables are modelled with |
| PteBits.NewEntries | kernel/mm/mm.c:154-180 | the words built for a page and for a table are the entries the model uses |
| CopyOnWrite.SnapshotInv | kernel/mm/mm.c:457-505 | a snapshot counts its reader and leaves all sharers read-only |
| CopyOnWrite.StoreFaultInv | kernel/irq/irq.c:144-168 | a store fault takes the frame for the last reader or moves one reader off it |
| CopyOnWrite.StepInv | kernel/mm/mm.c:457-505 | every snapshot, fault, store and swap keeps the sharing invariant |
| CopyOnWrite.RunInv | kernel/irq/irq.c:139-169 | over any sequence the reader count is the number of present read-only entries naming the frame, and no entry naming a shared frame is writable |
| CopyOnWrite.SwapSoundIff | kernel/mm/mm.c:355-405 | swapping out a node goes through and keeps the invariant if and only if the page recorded in it is the page its frame belongs to |
| CopyOnWrite.LeftSharing | kernel/irq/irq.c:157-168 | a page that leaves sharing by a store fault can be swapped soundly afterwards if and only if, as last reader, its frame was made for it, or else it is page 0 |
| CopyOnWrite.FlipIsClear | kernel/mm/mm.c:483-492 | in every such state the exclusive or of a snapshot acts as a clear |
| CopyOnWrite.StorePrivate | kernel/irq/irq.c:139-169 | a store to a writable page is seen by that page alone |
| CopyOnWrite.SnapshotShows | kernel/mm/mm.c:457-505 | the snapshot is at the first page after va that is nowhere, shows what the page shows, and no page changes |
| CopyOnWrite.StepShows | kernel/irq/irq.c:125-173 | what every event does to what every page shows |
| CopyOnWrite.BroughtEvictable | kernel/mm/mm.c:171-182 | a page that a fault brought in, new or from the SD card, can be swapped out in its turn |
| CopyOnWrite.EvictClears | kernel/mm/mm.c:388-405 | the frame of a page that is swapped out is cleared |
| CopyOnWrite.CopyKept | kernel/irq/irq.c:163-168 | the page keeps its content over a store fault if and only if it was the last reader or its new frame already held the same |
| CopyOnWrite.CopyLost | kernel/irq/irq.c:167 | for any content of a page, a run in which a snapshot and a store fault lose it |
| CowTables.SameShown | kernel/mm/mm.c:314-345 | every page shows in the page map what the walk of the tables finds |
| CowTables.CowOfInv | kernel/mm/mm.c:136-185 | a process that has taken no snapshot is a state of the copy-on-write model with nothing shared |
| SharedTables.StepTables | kernel/mm/mm.c:136-505 | on the three-level tables every snapshot, store fault, store, swap and new table is the step of the page map, and keeps the tables a tree and the sharing in order |
| SharedTables.RunTables | kernel/mm/mm.c:136-505 | over any run of them the tables stay a tree and the page map they implement runs as the copy-on-write model does |
| SharedTables.StepWalk | kernel/irq/irq.c:125-173 | what every event does to what the walk finds for every page: its own store, and the fault that takes it off a frame others still share |
| SharedTables.StartShared | kernel/mm/mm.c:136-185 | an address space without snapshots is a state these runs start from |
| SharedProcesses.StepFenced | kernel/mm/mm.c:388-505 | an event of a process changes only frames it holds or is given, and its tables stay in frames it holds |
| SharedProcesses.OtherKept | kernel/mm/mm.c:388-505 | an event of one process keeps every other process in order and every page of it as it was, shared or not |
| SharedProcesses.MoveTogether | kernel/irq/irq.c:103-173 | any event of any process, and any start of one, keeps all processes in order and their frames apart, with snapshots and shared frames |
| SharedProcesses.StartTogether | kernel/mm/mm.c:136-185 | processes in order and apart that have taken no snapshot are a state these runs start from |
| SharedProcesses.RunIsolated | kernel/irq/irq.c:103-173 | over any run of any number of processes with snapshots, the walk finds for a page what it found with that process's own stores applied, as long as it does not leave a frame others still share |
| CopyOnWrite.CowSpace.FindNode | kernel/mm/mm.c:468-474 | the first node with that frame |
| CopyOnWrite.CowSpace.FindFree | kernel/mm/mm.c:476-481 | the first page after va that is nowhere |
| CopyOnWrite.CowSpace.DoSnapshot | kernel/mm/mm.c:457-505 | the calls in order are the snapshot step, and the answer is the first page after va that is neither in memory nor in the SD card |
| CopyOnWrite.CowSpace.HandleStoreFault | kernel/irq/irq.c:144-168 | the handler in order is the store-fault step |
| Scheduler.SuspendPart | kernel/sched/sched.c:114-122 | a process that blocks is in its wait queue once and nowhere else |
| Scheduler.WakePart | kernel/sched/sched.c:418-421 | waking moves a blocked process to the end of the ready queue |
| Scheduler.UnblockPart | kernel/sched/sched.c:124-130 | the head of a queue, and no other, becomes ready |
| Scheduler.CheckSleepingMoves | kernel/sched/time.c:34-53 | exactly the due sleepers move to the ready queue, in order; the others stay in order |
| Scheduler.SchedulePart | kernel/sched/sched.c:45-96 | a whole pass of the scheduler keeps the partition, whatever its process had become, and touches no queue but the ready and the sleep queue |
| Scheduler.WakeAllPart | kernel/sched/sched.c:249-255 | draining a wait queue makes all of it ready, in order |
| Scheduler.LeavePart | kernel/sched/sched.c:270-271 | an ending process is in no queue and no other moved |
| Scheduler.ScheduleRank | kernel/sched/sched.c:59-89 | a pass on a core that may run a ready process picks it or brings it one place nearer; a pass on any other core never sets it back |
| Bypass.StepRank | kernel/sched/sched.c:45-364 | whatever call is made, unless it kills it, a ready process is picked on a core its mask admits, or stays ready without falling back, and is nearer if such a core passed it over |
| Bypass.RankFalls | kernel/sched/sched.c:45-364 | over any run that neither picks nor kills it, a ready process comes one place nearer at each pass on a core it may run on |
| Bypass.BoundedBypass | kernel/sched/sched.c:45-96 | in any run a ready process with n ahead of it is passed over at most n times by cores that may run it |
| Bypass.PickedInTime | kernel/sched/sched.c:45-96 | in any run with more such passes one event, no later than the one that makes them too many, picks it or kills it |
| CallEffects.StepCores | kernel/sched/sched.c:45-364 | a call that does not end in a pass leaves every core alone; one that does leaves its core with a running process or idle and the other cores alone |
| CallEffects.SignalFirst | kernel/locking/lock.c:199-209 | a signal moves the longest waiter of the condition to the end of its lock's queue, and leaves the others in order |
| CallEffects.SignalLost | kernel/locking/lock.c:199-209 | with the lock free a signal makes the waiter the lock's owner and leaves it marked blocked in no queue, and no core changes hands |
| CallEffects.BroadcastFree | kernel/locking/lock.c:211-229 | with the lock free a round of a broadcast makes the waiter its owner and puts it at the end of the ready queue, still marked blocked |
| CallEffects.StartMakes | kernel/sched/sched.c:131-242 | a new process has the next number and its creator's cores, and every other process is as it was |
| CallEffects.NobodyThere | kernel/sched/sched.c:276-364 | killing or waiting for a number nobody has changes nothing |
| CallEffects.AcquiresAtOnce | kernel/locking/lock.c:70-80 | a free lock is acquired at once, with nothing changed but the lock and the claim |
| Syscalls.AcquireInv | kernel/locking/lock.c:70-80 | acquiring, at once or by blocking, keeps partition and lock discipline |
| Syscalls.ReleaseInv | kernel/locking/lock.c:82-94 | releasing, to nobody or to the first waiter, keeps partition and lock discipline |
| Syscalls.HandInv | kernel/locking/lock.c:82-94 | handing on a lock whose owner is gone restores the discipline |
| Syscalls.HandOffInOrder | kernel/locking/lock.c:82-94 | a released lock goes to the process that has waited longest, which becomes ready as its owner |
| Syscalls.CondWaitInv | kernel/locking/lock.c:187-197 | waiting on a condition gives the lock up and keeps the discipline |
| Syscalls.SignalOneInv | kernel/locking/lock.c:199-209 | with the lock held by another, the signalled process moves to the lock's queue |
| Syscalls.BroadcastAllInv | kernel/locking/lock.c:211-229 | every waiter moves, in order, behind those already waiting for the lock |
| Syscalls.ExitInv | kernel/sched/sched.c:244-274 | exiting wakes all waiters and keeps the invariant |
| Syscalls.KillSlotInv | kernel/sched/sched.c:276-342 | killing an owner, a waiter, a running or a ready process keeps it |
| Syscalls.WaitDrained | kernel/sched/sched.c:249-255 | the drained queue is empty, because nobody in it has ended |
| Syscalls.ExecInv | kernel/sched/sched.c:134-242 | a new process joins the ready queue with an unused number |
| Syscalls.MutualExclusion | kernel/locking/lock.c:70-94 | at most one live process holds a lock; whoever claims it and does not wait is the one |
| Syscalls.StepInv | kernel/sched/sched.c:98-364 | every properly made call keeps the whole invariant |
| Syscalls.RunInv | kernel/sched/sched.c:45-364 | every interleaving of proper calls, by any number of processes on any number of cores, keeps the whole invariant |
| Syscalls.RunPartition | kernel/sched/sched.c:45-364 | in any run a ready process is in the ready queue once, a blocked one in one wait queue, a running one on one core, an ended one nowhere |
| Syscalls.RunExclusion | kernel/locking/lock.c:70-209 | in any run whoever returns from acquiring or from a condition is the recorded owner, and there is one |
| Syscalls.BootInv | kernel/sched/sched.c:20-43 | the state at boot satisfies the invariant |
| Barriers.StepKeeps | kernel/locking/lock.c:125-140 | no call that is not an arrival or a kill of a waiter touches a barrier |
| Barriers.Arrival | kernel/locking/lock.c:125-140 | an arrival before the last waits at the end; the last releases all the others in order and the barrier is as at first |
| Barriers.RunBarrier | kernel/locking/lock.c:109-140 | in every run that kills none of its waiters, count and queue length together are the goal |
| Barriers.SignalSound | kernel/locking/lock.c:199-209 | a signal keeps the invariant if and only if the lock is held |
| Barriers.ExitKeepsLocks | kernel/sched/sched.c:244-274 | a lock claimed by a process that exits stays taken, and no live process holds it |
| LockOwners.ExitOrphans | kernel/sched/sched.c:244-274 | after an exit a lock has a live owner if and only if it had one and the process that exits did not claim it |
| LockOwners.StepHeld | kernel/sched/sched.c:98-364 | a call leaves every taken lock with a live owner if and only if it is not an exit by a process that claims one |
| LockOwners.RunHeld | kernel/sched/sched.c:45-364 | in every run in which no process exits with a claim, whoever is killed, every taken lock has a live owner |
| LockOwners.BootHeld | kernel/sched/sched.c:20-43 | at boot every taken lock has a live owner, so such runs start there |
| Barriers.KillShrinksBarrier | kernel/sched/sched.c:314-318 | killing a waiter turns the barrier into one for a process fewer |
| Barriers.SleepSound | kernel/sched/sched.c:98-112 | the process of a core may sleep and the kernel invariant hold if and only if it was not killed meanwhile |
| Barriers.ZombieLost | kernel/sched/sched.c:98-112 | a process killed from another core that then sleeps is, once woken, marked running on no core |
| Wakeups.ScheduleStays | kernel/sched/sched.c:45-96 | a pass of the scheduler takes out of its wait queue a sleeper whose time has come, and nobody else |
| Wakeups.ReleaseAllStays | kernel/locking/lock.c:465-472 | whoever release_pcb_lock takes out of a lock's queue holds that lock |
| Wakeups.KillEnds | kernel/sched/sched.c:276-342 | after a kill the process has ended, has no number, nobody waits for it, and no lock is recorded as its own |
| Wakeups.Blocks | kernel/sched/sched.c:98-364 | when a call blocks its caller, and in which queue: a sleep of some time, a wait for a process that has not ended, a held lock, a condition |
| Wakeups.StepWakes | kernel/sched/sched.c:98-364 | over every call a process in a wait queue stays there, or is killed, or has its reason: its time came, its target ended, it holds the lock, it was signalled, or the barrier opened |
| Wakeups.RunWakes | kernel/sched/sched.c:45-364 | in every run a process that has left a wait queue was killed or had its reason at some call of the run: no spurious wakeup |
| KernelCalls.Machine.constructor | kernel/sched/sched.c:20-43 | the machine at boot, with the kernel invariant |
| KernelCalls.Machine.AddQueue | kernel/sched/sched.c:404-407 | the process is at the end of the queue |
| KernelCalls.Machine.DelQueue | kernel/sched/sched.c:418-421 | the process is in no queue; one in none stays so |
| KernelCalls.Machine.DoUnblock | kernel/sched/sched.c:124-130 | the head of the queue is ready, at the end of the ready queue; nothing else moved |
| KernelCalls.Machine.WakeSleepers | kernel/sched/time.c:34-53 | the walk that deletes as it goes is CheckSleeping |
| KernelCalls.Machine.Choose | kernel/sched/sched.c:69-84 | the first process the core may run, or none |
| KernelCalls.Machine.DoRequeue | kernel/sched/sched.c:59-63 | a process still running goes to the end of the ready queue; idle and others do not |
| KernelCalls.Machine.DoDispatch | kernel/sched/sched.c:65-89 | the chosen process, or idle if no process may run here, is on the core |
| KernelCalls.Machine.DoScheduler | kernel/sched/sched.c:45-96 | waking sleepers, requeueing and dispatching together are the scheduler pass whose partition and bypass bound are proved |
| KernelCalls.Machine.DoYield | kernel/sched/sched.c:45-96 | a timer tick: one pass of the scheduler, with the kernel invariant |
| KernelCalls.Machine.DoSleep | kernel/sched/sched.c:98-112 | the process sleeps until its time and the core is rescheduled |
| KernelCalls.Machine.FindPid | kernel/sched/sched.c:280-283 | the first slot with the number, or the table's length |
| KernelCalls.Machine.DoWaitpid | kernel/sched/sched.c:344-364 | waits for a live process, not for an ended one; an unknown number changes nothing and gives 0, any other is given back |
| KernelCalls.Machine.DrainWaiters | kernel/sched/sched.c:249-255 | the loop ends, with every waiter ready |
| KernelCalls.Machine.DoExit | kernel/sched/sched.c:244-274 | the loop over the waiters ends, the process is in no queue, the core is rescheduled, and the kernel invariant holds |
| KernelCalls.Machine.DoKill | kernel/sched/sched.c:276-342 | 0 for an unknown or ended process, 1 for a live one, which is then out of every queue with its locks handed on |
| KernelCalls.Machine.HandOn | kernel/locking/lock.c:82-94 | the lock is free, or owned by the first waiter, who is ready |
| KernelCalls.Machine.ReleaseOwned | kernel/locking/lock.c:465-472 | every lock with that owner number is handed on, and no other |
| KernelCalls.Machine.MutexAcquire | kernel/locking/lock.c:70-80 | the caller owns the lock, or is at the end of its queue and the core rescheduled; the kernel invariant holds |
| KernelCalls.Machine.MutexRelease | kernel/locking/lock.c:82-94 | the lock goes to the longest waiter or is free; the kernel invariant holds |
| KernelCalls.Machine.DoCondWait | kernel/locking/lock.c:187-197 | the caller waits on the condition, its lock is handed on, and the kernel invariant holds |
| KernelCalls.Machine.DoSignal | kernel/locking/lock.c:199-209 | with the lock held the first waiter moves to its queue and the core is rescheduled, with it free the waiter becomes its owner; the kernel invariant holds if and only if it was held |
| KernelCalls.Machine.MoveFirst | kernel/locking/lock.c:218-227 | one round takes the first waiter off the condition, to own the lock or to its queue |
| KernelCalls.Machine.MoveWaiters | kernel/locking/lock.c:216-227 | the loop on the live queue ends with nobody waiting and every waiter moved in order, to own the lock or to its queue |
| KernelCalls.Machine.DoBroadcast | kernel/locking/lock.c:211-229 | all waiters are moved, the core is rescheduled, and the kernel invariant holds |
| KernelCalls.Machine.DrainBarrier | kernel/locking/lock.c:129-132 | the loop wakes all and counts each back in |
| KernelCalls.Machine.DoBarrierWait | kernel/locking/lock.c:125-140 | the caller waits, or releases all the others; the core is rescheduled and the kernel invariant holds |
| Mailboxes.RingStored | kernel/locking/lock.c:341-345 | bytes that fit, stored modulo 64, are appended to the bytes waiting |
| Mailboxes.RunSafe | kernel/locking/lock.c:287-462 | in every run, kills included, the bytes received and then the ring are the bytes sent, message by message, with 0 <= tail - head <= 64; the lock is free and its queue empty whenever a process enters or resumes |
| Mailboxes.RunReady | kernel/locking/lock.c:287-462 | in every run exactly the processes inside a call that wait on nothing have been made ready, once each |
| MailboxWakes.SendWakes | kernel/locking/lock.c:287-375 | a send that fills the ring wakes every queued receiver in order, any other that goes through the longest waiting one, and one that does not fit waits last and wakes nobody |
| MailboxWakes.RecvWakes | kernel/locking/lock.c:377-462 | a receive that empties the ring wakes every queued sender in order, any other that goes through the longest waiting one, and one that finds too few bytes waits last and wakes nobody |
| MailboxWakes.RunFlushed | kernel/locking/lock.c:287-462 | in every run, whatever the lengths and kills: with the ring full no queued receiver asks for what it holds or less, with the ring empty no queued sender has a message that fits |
| Mailboxes.RunUsers | kernel/locking/lock.c:287-462 | without kills the user count is the number of processes inside calls |
| Mailboxes.RunLive | kernel/locking/lock.c:287-462 | with one message length from 1 to 64 and harmless kills, under every interleaving, queued receivers never face more messages than receivers already woken, and senders likewise |
| Mailboxes.KillLiveIff | kernel/sched/sched.c:276-342 | a kill keeps the promise that no wakeup is lost if and only if the process killed was not woken, nobody else waits as it did, or enough others are woken |
| Mailboxes.LastKillIff | kernel/sched/sched.c:276-342 | killing the last ready process leaves somebody starved if and only if the kill was not so harmless |
| Mailboxes.RunNotStarved | kernel/locking/lock.c:287-462 | with one message length and harmless kills a process that could go on never sleeps while nobody is ready |
| Mailboxes.NeverStuck | kernel/locking/lock.c:287-462 | with one message length and harmless kills senders and receivers are never all asleep together |
| Mailboxes.RunInOrder | kernel/locking/lock.c:287-462 | with one message length, whoever is killed, messages come out whole and in the order they went in |
| Mailboxes.FlattenAt | kernel/locking/lock.c:377-462 | with one length the k-th stretch of the stream is the k-th message |
| Mailboxes.MixedLengthsStarve | kernel/locking/lock.c:367-371 | for any two different lengths, a run in which the receiver that could go on sleeps with nobody ready |
| Mailboxes.NeverStarvesIff | kernel/locking/lock.c:287-462 | for a set of message lengths from 1 to 64, no run whose kills are harmless loses a wakeup if and only if the set has one length at most |
| Mailboxes.KillLosesWakeup | kernel/sched/sched.c:276-342 | a run in which a kill that is not harmless loses a wakeup |
| MailboxCalls.SharedMailbox.Put | kernel/locking/lock.c:339-345 | the copy loop stores the message at the tail |
| MailboxCalls.SharedMailbox.Take | kernel/locking/lock.c:427-433 | the copy loop takes the bytes at the head |
| MailboxCalls.SharedMailbox.DrainFull | kernel/locking/lock.c:350-356 | the loop makes every queued receiver ready, in order |
| MailboxCalls.SharedMailbox.DrainEmpty | kernel/locking/lock.c:438-444 | the loop makes every queued sender ready, in order |
| MailboxCalls.SharedMailbox.SendHeld | kernel/locking/lock.c:307-373 | past the lock, a send that fits goes through and one that does not waits |
| MailboxCalls.SharedMailbox.RecvHeld | kernel/locking/lock.c:397-461 | past the lock, a receive takes its bytes or waits |
| MailboxCalls.SharedMailbox.Send | kernel/locking/lock.c:287-374 | a call up to its first wait is one step of the protocol, done at once if and only if the lock is free and the message fits; a mailbox not open is refused; the waits are counted |
| MailboxCalls.SharedMailbox.Recv | kernel/locking/lock.c:377-462 | a receive up to its first wait is one step of the protocol; done at once if and only if the lock is free and the bytes are there; a mailbox not open is refused; what it returns is what the protocol gave out |
| MailboxCalls.SharedMailbox.ResumeSend | kernel/locking/lock.c:325-373 | a woken sender's next stretch is one step of the protocol, and each stretch that ends waiting counts one wait |
| MailboxCalls.SharedMailbox.ResumeRecv | kernel/locking/lock.c:414-461 | a woken receiver's next stretch is one step of the protocol |
| Rings.InitHead | include/os/list.h:102-106 | a head linked to itself is the empty list |
| Rings.IsEmpty | include/os/list.h:108-111 | true exactly when the list has no node but its head |
| Rings.AddTail | include/os/list.h:71-84 | four links make the node the last of the list |
| Rings.Close | include/os/list.h:95-100 | linking the neighbours leaves the ring without that node |
| Rings.Delete | include/os/list.h:86-93 | exactly that node leaves, from any place; a node in no list is left alone |
| Rings.Append | include/os/list.h:71-84 | appending to one list of a shared pool changes no other |
| Rings.Remove | include/os/list.h:86-100 | deleting from one list changes no other, and the node is then in none |
| Rings.WalkDelete | kernel/sched/time.c:40-51 | what one deletion during a walk does to the sequences of both lists |
| Rings.WakeNode | kernel/sched/time.c:44-49 | a due sleeper is deleted in mid-walk and appended to the ready list |
| Rings.WalkStep | kernel/sched/time.c:40-51 | one round, with the next node read before the deletion |
| Rings.WalkRound | kernel/sched/time.c:40-51 | one round changes the mark of one node at most and no wakeup time |
| Rings.CheckSleeping | kernel/sched/time.c:34-53 | the whole walk moves exactly the due sleepers, in order, leaves the others in order, and touches no other list |
| RingQueues.AppendIsEnqueue | kernel/sched/sched.c:404-407 | appending a detached node to a ring appends its process to the queue the ring stands for |
| RingQueues.DeleteIsWithout | kernel/sched/sched.c:418-421 | deleting a node from any place of a ring takes its process, and no other, out of the queue |
| RingQueues.PickedAreSleepers | kernel/sched/time.c:40-51 | the nodes a walk picks by wakeup time are the processes the scheduler picks, in order |
| RingQueues.WalkIsCheckSleeping | kernel/sched/time.c:34-53 | what the pointer walk leaves in the two rings is what check_sleeping leaves in the sleep and the ready queue |

## Left out

- Path splitting (`getDir`, `getSubdir`), `cd`, `ls`, `cat`, `statfs`: the calls are modelled on their last path component, in a given directory.
- `do_fopen` and `do_fclose`: descriptors are taken as open on a live file; what they show is easy beside the calls that use them.
- `do_ln` and hard links; removing a file that is open.
- The superblock and the prompt of `do_mkfs`: `DoMkfs` is the branch that initialises.
- The byte layout of an inode: an inode sector is a sequence of four records. Directory entries and index blocks are modelled in bytes.
- SD sectors are grouped as the kernel transfers them (one inode sector, one block, a whole map); device errors are not modelled.
- FileSystems.FileSystem.ByteLocate: has no triple-indirect level, because no 32-bit offset reaches it (`FsFile.PageSlotBounds`).
- FileSystems.FileSystem.DoFread: after a stop for lack of blocks only the buffers' sizes and the full bitmap are promised; the kernel does not go on from there.
- FileSystems.FileSystem.DoFwrite: the same; and the guard of `kernel/fs/fs.c:505` is absent, see above.
- FileSystems.FileSystem.DoLseek: an unknown `whence` is not modelled: the kernel then uses an uninitialised variable.
- FsRuns.HistoryRefines: has the successful calls; a refused call is shown by the methods to leave the state as it was. Descriptors and their offsets are not part of the flat store.
- `freePage`, kernel allocation, shared memory, `do_getpa`, threads, `do_taskset`: the first is never reached, the rest are easy beside the page tables or have no part in scheduling.
- The TLB, `satp`, cache fences, `switch_to` and registers; interrupts inside the kernel.
- VirtualMemory.RunTransparent: covers load and store faults on pages that are not in memory, mappings and user stores; a fault on a page that is present (a missing accessed bit) changes that bit only and is not modelled. A frame belongs to one process, in `Processes.RunIsolated` too.
- PagingCalls.AddressSpace.AppendNode: takes the next node of the array, which is what the search for an unused one finds while fewer than 300 were taken.
- SharedTables.StepTables: an eviction takes a node whose recorded page is the one its frame belongs to; of any other node `CopyOnWrite.SwapSoundIff` says what the kernel's swap does. The tables that `build_page_helper` may create, and an eviction they cause, are events of their own, before the event that needs them; the frame an event is given is any that nobody holds, and choosing it within the bound is `VirtualMemory.Take`.
- The key lookup of locks, barriers, conditions and mailboxes (`do_mutex_lock_init` and its kin), `do_mbox_open` by name, `do_mbox_close`, the destroy calls: properties are per index.
- Syscalls.RunInv: process number 0 is not killed, processes that share a number (threads) are not modelled, and a process killed while running elsewhere makes no further call; `Barriers.ZombieLost` shows why the last is needed.
- Mailboxes.RunSafe: the mailbox runs beside the kernel model and not inside it; a resumption may happen to any process that has been made ready. The user count after kills is not modelled.
- Rings.CheckSleeping: the system calls of `KernelCalls` work on queues as sequences; `RingQueues` shows, operation by operation, that the rings behave as those, and no call is stated on the pointers as a whole.
- `do_exec` beyond the process table: loading, arguments and stacks.
- Network, screen, shell, drivers and boot code.
