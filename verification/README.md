# A verified model of a teaching kernel

This project models the parts of a small x86 kernel that are hardest to get right and proves what they are for.
It has four groups of modules, over a small module `Basics` of options and sequences.

- **File system** (`Sectors`, `Bitmap`, `FileData`, `Directory`, `Tree`, `Volume`, `FileSystem`, `Paths`, `Namespace`,
  `SystemCalls`, `CleanPaths`, `InodeStore`, `Persistence`, `OpenInodes`). The disk is a map from sector numbers to
  512-byte sectors. A file is twelve direct blocks and a table of 128 more, a directory is a set of 24-byte slots in
  its blocks, and blocks come from a bitmap. The abstract view is a tree: a file is its bytes, a directory is a finite
  map from names. Every operation is proved to do to the tree what it should, and every block taken in the bitmap
  belongs to exactly one inode, over any sequence of operations, after which the inode table on the disk still holds
  every inode. The calls are followed from the path on and through the list of open inodes, with the exact conditions
  under which the code leaves the tree or the list out of order. Paths have a normal form, which leads where the path
  leads, and resolution of a path is proved against the path of a directory.
- **Threads** (`List`, `Scheduler`, `Locks`, `LockCalls`, `Processes`, `ProcessCalls`). The ready list and the
  scheduler, semaphores and recursive locks as a machine with one step per statement, time slices, and fork, wait and
  exit with the pids. `LockCalls` and `ProcessCalls` put the steps together to whole calls.
- **Memory** (`Paging`, `AddressSpace`, `PageWords`, `PageRuns`, `PoolLocks`, `Heap`, `HeapSpace`). The page-table
  walk of the processor against the self-map that the kernel reads and writes its tables through, the pools of frames
  and of virtual pages, the words of all page tables as a refinement of those pools over every run from the loader on,
  palloc statement by statement under its two locks, and the arena allocator over the pages that malloc_page maps.
- **Devices** (`Ide`, `IoQueue`). The completion handshake of the disk under any pattern of interrupts, the cutting of
  a transfer into commands, and the ring buffer with its sleeping producers and consumers.

Conventions. Code that updates fields or loops is a method, proved against a function on values; the properties are
lemmas about those functions. An ASSERT or PANIC of the source is a `Halted`, `Stopped` or `None` result with the exact
condition for it, or (in `Scheduler`, `Locks`, `Ide` and in the class methods) a condition that is proved to hold.
Interrupts and the amount of memory are parameters. Stretches with interrupts off are one step up to the next sleep.
In `AddressSpace`, `HeapSpace` and `FileSystem` a call is one step, which the code does not secure: a kernel thread runs
with interrupts on (thread/thread.c:81), page_table_add takes frames of the kernel's pool under the lock of the user
pool, and calls of the file system sleep in ide_read without a lock. `PoolLocks` has the exact condition under which
frames stay unique when scan and set are two steps. Fields called auxiliary in the comments record history and are
never read by the modelled code.

Where the code does less than its comments say, the model follows the code and the exact condition is proved:

- `Bitmap.ScanInBounds`: the scan for more than one bit looks one bit too far.
- `InodeStore.SyncReliable`: inode numbers are cut to eight bits.
- `FileSystem.RemoveDir`, `SystemCalls.SysRmdir`: rmdir of a path that ends in "." frees an empty directory while the
  directory above still names it. The tree is kept exactly when the path does not end in ".".
- `SystemCalls.StrictExactly`: a path that goes on after a regular file means that file, so unlink("/f/x") deletes /f.
- `OpenInodes.OpenPartition.Do`, `OpenInodes.OpenPartition.Run`: rmdir does not look at the list of open inodes, so the
  node of a removed directory can be left over. The nodes show the inodes of the partition exactly as long as no create
  or mkdir takes the number of a left-over node that shows something else. No open handle is needed: sys_open of an
  existing file never closes the directory it was found in (`OpenInodes.LeakThenCreate`). At the level of the list,
  `InodeStore.InodeTable.Create` and `InodeStore.InodeTable.StoreOnly` have the exact conditions, and
  `InodeStore.ReuseByCreate` and `InodeStore.ReuseByMkdir` the runs.
- `FileData.FileWrite`, `FileData.FileRead`: the last sizes that are refused, and the counts for which a 32-bit sum wraps.
- `Namespace.GetCwd`: the assert on the caller's size lets through a path whose final zero lies behind the buffer, and
  a working directory that has been removed stops the kernel.
- `PageRuns.BootExactly`: the loader does not clear the page tables, so they are in order at the start exactly when the
  memory had no present bit there.
- `Processes.StrandedExactly`: init is not woken for an orphan that already hangs.
- `IoQueue.MissesExactly`, `IoQueue.WaitsInVainExactly`: a consumer or producer that gets the lock registers without
  looking at the ring again, so it can sleep on a ring that is not empty or not full. There are runs with two
  consumers, with two producers, and with one of each.
- `IoQueue.IoRing.PipeWrite`: the caller may take one byte more room than the ring has.
- `PoolLocks.UniqueExactly`: with the two locks as they are, a frame can be given out twice.
- `AddressSpace.FramesExist`: the pools on a machine with less than two megabytes.

## Model

| member | source | states |
|---|---|---|
| `Bitmap.BitmapObject.constructor` | lib/kernel/bitmap.c:9-11 | every bit of the map is clear and the memory behind it is untouched |
| `Bitmap.BitmapObject.Test` | lib/kernel/bitmap.c:14-18 | the byte and mask arithmetic reads exactly the bit asked for |
| `Bitmap.BitmapObject.Set` | lib/kernel/bitmap.c:73-85 | exactly one bit of the map changes, at byte and mask level |
| `Bitmap.BitmapObject.Scan` | lib/kernel/bitmap.c:21-70 | halts exactly on a full map; otherwise finds the lowest run of clear bits among those it inspects, or none exactly when there is none |
| `Bitmap.BitmapObject.ScanRun` | lib/kernel/bitmap.c:48-69 | the counting loop finds the lowest run that starts at or after the first clear bit |
| `Bitmap.BitmapObject.Take` | kernel/memory.c:54-90 | scan then set changes exactly the bits of the run found |
| `Bitmap.EditBitAt` | lib/kernel/bitmap.c:73-85 | setting or clearing through a mask leaves every other bit of every byte alone |
| `Bitmap.ScanInBounds` | lib/kernel/bitmap.c:48-69 | the run found lies inside the map exactly when the map has a run; otherwise it ends on the bit behind it |
| `Bitmap.ScanOverrunExample` | lib/kernel/bitmap.c:48-69 | a map for which the scan answers with a run that is not in the map |
| `Sectors.WordsRoundTrip` | fs/file.c:362-370 | a table of 32-bit words written to a sector reads back the same |
| `FileData.PoolMatchesBitmap` | fs/file.c:64-71 | the set of taken blocks is the block bitmap, and the lowest clear bit is the block allocated |
| `FileData.BlockAlloc` | fs/file.c:64-71 | the lowest free block is taken and one fewer is free; 0 exactly when none is |
| `FileData.GrowDirect` | fs/file.c:299-323 | growth within the direct blocks keeps the old blocks and adds fresh, distinct ones; halts exactly when too few are free |
| `FileData.GrowIntoTable` | fs/file.c:324-363 | growth that makes the table keeps the old blocks and adds the table and the new blocks |
| `FileData.GrowInTable` | fs/file.c:364-387 | growth within the table keeps the old entries and adds fresh ones |
| `FileData.Gather` | fs/file.c:261-388 | in all four cases the addresses gathered are the blocks of the file from the one with the end to the new end |
| `FileData.WriteData` | fs/file.c:389-418 | the loop writes the buffer behind the old end, sector by sector, and touches no other block |
| `FileData.FileWrite` | fs/file.c:230-419 | refused, halted, wrapped past 32 bits and done exactly when; when done the contents are the old ones followed by the buffer, other blocks are untouched, and fd_pos is one below the new size, or 0xffffffff for an empty file |
| `FileData.WriteAppended` | fs/file.c:389-418 | contents, ownership and frame of the write put together |
| `FileData.ReadBlocks` | fs/file.c:455-496 | the addresses collected are the blocks of the range, direct or through the table |
| `FileData.ReadData` | fs/file.c:497-518 | the loop copies the bytes of the range in order |
| `FileData.FileRead` | fs/file.c:422-519 | at any position that the descriptor can have: refused at the end of the file, overrun exactly when fd_pos plus the count wraps, halts exactly when fd_pos is 0xffffffff or the range reaches block 139, and otherwise returns that slice of the contents and moves fd_pos by its length |
| `FileData.WriteThenRead` | fs/file.c:416-519 | a read right after a write gives back the last byte written, and the next one is at the end of the file |
| `FileData.Clip` | fs/file.c:424-434 | the 32-bit arithmetic cuts the count at the end of the file exactly when the sum does not wrap |
| `Directory.EntryStored` | fs/dir.c:103-108 | an entry written to a slot decodes to itself |
| `Directory.SearchDirEntry` | fs/dir.c:33-89 | finds an entry exactly when the name is in the directory, and then that one |
| `Directory.SyncDirEntry` | fs/dir.c:111-206 | takes the first slot that is not live, making the block if needed; refuses exactly when all 252 slots are live |
| `Directory.InsertKeepsDir` | fs/dir.c:111-206 | an insert adds exactly one name to the map and keeps i_size at 24 bytes for each live entry |
| `Directory.DeleteDirEntry` | fs/dir.c:209-315 | finds the entry of the inode if there is one and removes it, and the block with it when it was the last but not the first block |
| `Directory.DeleteKeepsDir` | fs/dir.c:209-315 | a delete removes exactly one name, and every block but the first still holds a live entry |
| `Directory.EmptyDirHasOneBlock` | fs/dir.c:372-398 | dir_is_empty holds exactly when only the two dot entries are live, and then all other block pointers are 0, as dir_remove asserts |
| `Directory.DirRead` | fs/dir.c:318-369 | the call at a position returns the live entry of that number in slot order, or nothing at the end, for any pattern of holes |
| `Directory.ReadAll` | fs/fs.c:790-800 | from a rewind the calls return every live entry once and then stop |
| `Directory.ListedOnce` | fs/dir.c:318-369 | no name is listed twice |
| `Directory.ListedExactly` | fs/dir.c:318-369 | an entry is in the list exactly when it stands live in a slot |
| `Directory.FullDirectory` | fs/dir.c:111-206 | a directory has 252 names exactly when no slot is free |
| `Directory.FirstFreePlace` | fs/dir.c:130-141 | entering a name takes a block exactly when every place before some missing block is taken |
| `Tree.WriteKeepsTree` | fs/file.c:230-419 | writing a file keeps the tree a tree |
| `Tree.AddKeepsTree` | fs/fs.c:617-741 | hanging a new node under a fresh name keeps the tree closed, named once and free of cycles |
| `Tree.RemoveKeepsTree` | fs/fs.c:803-840 | taking away a file or an empty directory keeps the tree a tree |
| `Volume.BitMeansOneOwner` | fs/file.c:64-71 | a block's bit is set exactly when some inode owns the block, and no two inodes own it |
| `Volume.GrowthKeepsBlocks` | fs/file.c:262-387 | an inode that grows by fresh blocks keeps the ownership exact and every other inode unchanged |
| `Volume.ShrinkKeepsBlocks` | fs/dir.c:267-299 | an inode that gives blocks back keeps the ownership exact and every other inode unchanged |
| `Volume.ReleaseBlocks` | fs/inode.c:168-223 | the two loops clear exactly the bits of the blocks the inode owned |
| `Volume.ReleaseKeepsBlocks` | fs/inode.c:168-223 | releasing an inode keeps ownership exact and removes exactly that inode from the view |
| `Volume.NodeFramed` | fs/file.c:389-418 | a change outside the blocks of an inode does not change what it holds |
| `FileSystem.Write` | fs/file.c:230-419 | a write appends to its file, changes no other node and keeps the invariant of the volume |
| `FileSystem.InodeAlloc` | fs/file.c:54-61 | the lowest free inode number, or none when all are taken |
| `FileSystem.CreateFile` | fs/file.c:96-182 | the file is added with a fresh inode and no other inode changes; it stops exactly when the name needs a block and none is free, and leaves the model exactly when numbers or places run out |
| `FileSystem.MakeDir` | fs/fs.c:617-741 | the directory is added with its dots and no other inode but the parent changes; it stops exactly when one block, or two if the name needs one, are not free |
| `FileSystem.Unlink` | fs/fs.c:559-614 | the name and the file are gone and nothing else has changed |
| `FileSystem.RemoveDir` | fs/fs.c:803-840 | from the inode and the parent that search_file gives: removed exactly when only the dot entries are left; the tree is kept when the parent is another directory, and for the directory itself it is gone while its name stays, so that no ranks order the tree |
| `FileSystem.DropName` | fs/dir.c:209-316 | delete_dir_entry takes exactly the one name of the inode out, and finds nothing exactly when there is none but the dots |
| `FileSystem.LostBreaks` | fs/dir.c:393-395 | a directory that goes without its name leaves a name that leads nowhere |
| `FileSystem.FormatInv` | fs/fs.c:81-201 | a formatted partition is a root directory with its two dot entries and satisfies the invariant |
| `FileSystem.Run` | fs/fs.c:559-840 | over any sequence of operations every block has one owner, the tree stays in order and is the replay of the effects, up to the first rmdir of "." in an empty directory other than the root, exactly |
| `FileSystem.MountedPartition.constructor` | fs/fs.c:81-201 | a new partition holds the empty root |
| `FileSystem.MountedPartition.WriteFile` | fs/file.c:230-419 | the write seen from a descriptor: contents, fd_pos at the last byte and the exact failures |
| `FileSystem.MountedPartition.ReadFile` | fs/file.c:422-519 | the read seen from a descriptor: the slice at any position, and the exact failures |
| `FileSystem.MountedPartition.Apply` | fs/fs.c:559-840 | one operation: the contents change by its effect, it does something exactly when it can, and the partition stays in order exactly when it is not such an rmdir |
| `Paths.PathParse` | fs/fs.c:204-224 | splits off the first component and the rest |
| `Paths.ComponentsOfRender` | fs/fs.c:204-224 | splitting a rendered list of names gives the list back |
| `Paths.ComponentsOfConcat` | fs/fs.c:204-224 | two paths glued with a slash have the components of both |
| `Paths.WashPath` | shell/buildin_cmd.c:12-50 | the edit in place leaves in the buffer the rendering of the stack folded over the components |
| `Paths.CleanIsNormal` | shell/buildin_cmd.c:12-50 | washing is idempotent, leaves no dots, and splits back into the stack |
| `Paths.MakeClearAbsPath` | shell/buildin_cmd.c:53-66 | the buffer holds the clean form of the path taken from the working directory |
| `CleanPaths.UpUndoesName` | shell/buildin_cmd.c:12-50 | anywhere in a path a name and the ".." after it cancel |
| `CleanPaths.UpAtRoot` | shell/buildin_cmd.c:12-50 | ".." at the root stays there |
| `CleanPaths.WalkFollows` | fs/fs.c:249-324 | the stack that the components of a path build is the list of names from the root to the directory that search_file follows them to |
| `CleanPaths.CleanSameDirectory` | shell/buildin_cmd.c:12-50 | a path that leads to a directory and its washed form lead to the same one |
| `CleanPaths.CleanSameEntry` | shell/buildin_cmd.c:12-50 | a path that ends in a name behind such a path finds, or misses, with its washed form the same entry of the same directory |
| `CleanPaths.RelativeSameDirectory` | shell/buildin_cmd.c:53-66 | a path made absolute leads where its components lead from the working directory |
| `Namespace.SearchFile` | fs/fs.c:249-324 | the walk over the path gives what the path means in the tree, with its parent and its failures; the assert on the path fires exactly for an empty one, one without a leading slash and one of 512 bytes or more, and the record is left unset exactly for several slashes alone |
| `Namespace.PathLeadsBack` | fs/fs.c:843-961 | the names from the root to a directory lead to it |
| `Namespace.ParentInode` | fs/fs.c:843-855 | reads the parent from the second entry |
| `Namespace.ChildName` | fs/fs.c:859-903 | finds the name of the child in the parent's blocks |
| `Namespace.TurnAround` | fs/fs.c:951-958 | the loop over the last slashes turns the names around |
| `Namespace.GetCwd` | fs/fs.c:908-961 | the climb ends; the path is returned exactly when it fits both buffers, the assert on the size fires exactly when it is longer than that, and otherwise its final zero is behind the buffer; for a directory that has been removed the assert on its block fires, or the block of a file is read |
| `Namespace.CwdResolves` | fs/fs.c:249-961 | the path that sys_getcwd gives resolves with search_file back to the directory, for every directory but the root |
| `SystemCalls.ResolveFinds` | fs/fs.c:286-323 | a directory is found with the parent that has the entry for the last component, a file with the parent that names it |
| `SystemCalls.DotFindsItself` | fs/fs.c:286-323 | the parent found is the directory itself exactly when the path ends in "." |
| `SystemCalls.SysRmdir` | fs/fs.c:803-840 | for every path: gone, refused and halted exactly when; the tree is kept exactly when the path does not end in "." |
| `SystemCalls.DotPath` | fs/fs.c:286-323 | for every directory but the root, its path followed by "/." finds it with itself as the parent |
| `SystemCalls.RmdirOfDot` | fs/dir.c:393-395 | rmdir with such a path of any empty directory: it is gone and still named |
| `SystemCalls.MkdirThenRmdirOfDot` | fs/dir.c:393-395 | a run to that from every state with room for a directory |
| `SystemCalls.NumberReused` | fs/file.c:107-159 | whatever takes the number next is entered under two names |
| `SystemCalls.SysUnlink` | fs/fs.c:559-616 | for every path and file table: gone, refused and halted exactly when, and the name that was found goes with the file |
| `SystemCalls.StrictExactly` | fs/fs.c:303-306 | search_file gives the strict meaning of a path exactly when no part before its end means a file |
| `SystemCalls.UnlinkThroughFile` | fs/fs.c:559-616 | unlink("/f/x") of a regular file f deletes f though the path strictly means nothing |
| `InodeStore.Locate` | fs/inode.c:22-46 | the sector and offset are those of the record, and two sectors are used exactly when it straddles |
| `InodeStore.Overwrite` | fs/inode.c:69-79 | the read, change and write of one or two sectors changes exactly the bytes of the record |
| `InodeStore.OverwrittenRecords` | fs/inode.c:49-80 | one record changes and every other record is as it was |
| `InodeStore.DecodeEncode` | fs/inode.c:58-65 | storing and reading an inode gives its persistent fields, with the memory-only ones cleared |
| `InodeStore.InodeSync` | fs/inode.c:49-80 | the record of the number cut to eight bits becomes the inode, and no other record changes |
| `InodeStore.Fetch` | fs/inode.c:97-118 | reads the record back, also across two sectors |
| `InodeStore.SyncReadBack` | fs/inode.c:49-126 | below 256, sync then open returns the persistent fields |
| `InodeStore.SyncMisses` | fs/inode.c:51 | from 256 on, the record read back is the old one and another inode has been overwritten |
| `InodeStore.SyncReliable` | fs/inode.c:49-80 | sync is read back on every disk exactly when the number is below 256 |
| `InodeStore.InodeTable.Open` | fs/inode.c:83-126 | one node for each number, the open count exactly one more, and the inode equal to its record |
| `InodeStore.InodeTable.Close` | fs/inode.c:129-144 | the open count exactly one less, and the node gone when it was the last |
| `InodeStore.InodeTable.Update` | fs/inode.c:49-80 | a change followed by a sync keeps every open inode equal to its record and changes no other record |
| `InodeStore.InodeTable.constructor` | fs/fs.c:70 | a mounted partition has no open inode and its records are the live ones |
| `InodeStore.InodeTable.Create` | fs/file.c:96-182 | a new inode is stored blank and its node pushed; the cache stays one node a number exactly when no node of that number is left over |
| `InodeStore.InodeTable.StoreOnly` | fs/fs.c:655-716 | mkdir stores an inode without a node; the cache stays equal to the disk exactly when a left-over node shows the same |
| `InodeStore.InodeTable.Delete` | fs/inode.c:147-165 | the record is zero, and no other changes |
| `InodeStore.ReuseByCreate` | fs/file.c:107-164 | opening, removing and creating again ends with two nodes for one number |
| `InodeStore.ReuseByMkdir` | fs/fs.c:655-716 | opening, removing and mkdir again ends with a node that shows the old directory |
| `InodeStore.FormatStoresRoot` | fs/fs.c:165-174 | the formatted table holds the root inode |
| `Persistence.FieldsFit` | fs/inode.c:58-65 | the size and block addresses of every inode fit their words |
| `Persistence.SaveEffect` | fs/file.c:141-160 | the syncs and wipes that the calls end with bring the table on the disk in line with all inodes |
| `Persistence.RunStored` | fs/fs.c:559-840 | after any run of operations, reading the inodes back from the table gives the files and directories that the effects make; it ends early exactly as Run does |
| `Persistence.FormatKept` | fs/fs.c:165-174 | a formatted partition starts with its table in line |
| `OpenInodes.NodesAgree` | fs/inode.c:83-126 | while the list is in line with the table and the table with the partition, every node of a number in use shows its inode |
| `OpenInodes.FileOverNode` | fs/file.c:107-164 | a file over a left-over node is always shown wrong by it |
| `OpenInodes.Touch` | fs/inode.c:49-144 | open, change, sync and close of an inode keep list, table and partition in line and every other node as it was |
| `OpenInodes.SaveFile` | fs/file.c:141-164 | after file_create the list is in line exactly when no node of that number was left over |
| `OpenInodes.SaveDir` | fs/fs.c:711-717 | after sys_mkdir the list is in line exactly when a left-over node of that number shows the same |
| `OpenInodes.SaveRemoval` | fs/inode.c:147-238 | inode_release leaves the others in line, and an open node behind |
| `OpenInodes.OpenPartition.constructor` | fs/fs.c:70 | a mounted partition starts in line |
| `OpenInodes.OpenPartition.Open` | fs/inode.c:83-126 | the node shows the inode of the partition, and no other node changes |
| `OpenInodes.OpenPartition.Close` | fs/inode.c:129-144 | one opener less, and no other node changes |
| `OpenInodes.OpenPartition.Do` | fs/fs.c:559-840 | one call through the list: its effect, when it is refused for an open file, and the nodes show the inodes exactly when it takes no number with a stale node |
| `OpenInodes.OpenPartition.Run` | fs/fs.c:559-840 | over any run of calls with any opening and closing between them the nodes show the inodes that the effects make, up to the first call that takes a stale number or is an rmdir of ".", exactly |
| `OpenInodes.LeakThenCreate` | fs/fs.c:382-393 | a directory left open by sys_open, removed, and its number taken by a file: the file is shown wrong |
| `List.LinkedList.constructor` | lib/kernel/list.c:7-12 | the sentinels point at each other |
| `List.LinkedList.InsertBefore` | lib/kernel/list.c:17-27 | the element stands before the given one and all links fit |
| `List.LinkedList.Push` | lib/kernel/list.c:32-34 | the element is first |
| `List.LinkedList.Append` | lib/kernel/list.c:39-41 | the element is last |
| `List.LinkedList.Remove` | lib/kernel/list.c:46-53 | the element is out, the others keep their order and all links fit |
| `List.LinkedList.Pop` | lib/kernel/list.c:58-64 | the first element is out |
| `List.LinkedList.Find` | lib/kernel/list.c:69-80 | true exactly for an element of the list |
| `List.LinkedList.IsEmpty` | lib/kernel/list.c:82-84 | true exactly for the empty list |
| `List.LinkedList.Length` | lib/kernel/list.c:86-96 | the number of elements |
| `Scheduler.IdleIsBlocked` | thread/thread.c:200-206 | when schedule finds the list empty, idle is BLOCKED and can be woken |
| `Scheduler.ScheduleKeeps` | thread/thread.c:182-214 | schedule always finds a thread, leaves exactly one RUNNING and the ready list exact, and puts nobody but idle to sleep or awake |
| `Scheduler.BlockKeeps` | thread/thread.c:217-225 | block keeps all this, and the sleeper is the caller |
| `Scheduler.UnblockKeeps` | thread/thread.c:230-243 | the thread woken was not on the list, and all this holds |
| `Scheduler.WokenRunsNext` | thread/thread.c:230-263 | a thread that is woken goes before all that are ready: it is the next to run |
| `Scheduler.YieldKeeps` | thread/thread.c:255-263 | yield keeps all this |
| `Scheduler.TickKeeps` | device/timer.c:37-49 | a timer interrupt keeps all this, and ticks at most the priority |
| `Scheduler.Rotates` | thread/thread.c:182-214 | at the end of a slice the thread is last on the list with a full slice, the first of the list runs and nothing else changes; a thread that is alone goes on with a full slice |
| `Scheduler.YieldGoesBack` | thread/thread.c:255-263 | the caller is last on the list with the rest of its slice, the first runs and nothing else changes |
| `Scheduler.StartKeeps` | thread/thread.c:140-164 | a new thread is READY and on the list once |
| `Scheduler.ExitKeeps` | thread/thread.c:335-364 | an exit takes the thread off the list and keeps all this |
| `Scheduler.RoundRobin` | device/timer.c:37-49 | over timer interrupts alone, the thread at place k first runs after exactly the rest of the current slice and the slices before it, with the ticks it had |
| `Scheduler.ComesRound` | device/timer.c:37-49 | over a whole round the current thread runs to the end of its slice and not again before every other thread has had its own, and then with a full slice |
| `Scheduler.StartWaits` | thread/thread.c:115-164 | a new thread waits for the slices of all that were ready and then has a full one |
| `Scheduler.Kernel.constructor` | thread/thread.c:386-401 | the threads as thread_init leaves them |
| `Scheduler.Kernel.Reschedule` | thread/thread.c:182-214 | the code of schedule does what Schedule says |
| `Scheduler.Kernel.ThreadBlock` | thread/thread.c:217-225 | the code of thread_block does what Block says |
| `Scheduler.Kernel.ThreadUnblock` | thread/thread.c:230-243 | the code of thread_unblock does what Unblock says, and its asserts hold |
| `Scheduler.Kernel.ThreadYield` | thread/thread.c:255-263 | the code of thread_yield does what Yield says, and its assert holds |
| `Scheduler.Kernel.ThreadStart` | thread/thread.c:140-164 | the code of thread_start does what Start says |
| `Scheduler.Kernel.ThreadExit` | thread/thread.c:335-364 | the code of thread_exit does what Exit says |
| `Scheduler.Kernel.TimerInterrupt` | device/timer.c:37-49 | the code of the handler does what Tick says |
| `Basics.Unlink` | lib/kernel/list.c:46-80 | find and remove takes out the first occurrence |
| `Locks.AssertsNeverFire` | thread/sync.c:22-79 | no assert of the locks and semaphores, nor of the scheduler under them, can fire in any reachable state |
| `Locks.ReleaseAssert` | thread/sync.c:69-79 | the first assert of lock_release says exactly that the caller has an acquire left to undo |
| `Locks.SeatWakes` | thread/sync.c:43-53 | sema_up takes the first waiter off the list and makes it ready, still inside its loop |
| `Locks.SeatSleeps` | thread/sync.c:22-40 | a thread that finds the value 0 goes on the waiters, once |
| `Locks.SeatTakes` | thread/sync.c:22-40 | a thread that finds the value 1 becomes the only owner |
| `Locks.StepKeeps` | thread/sync.c:22-79 | every step of every thread, and every timer interrupt between them, keeps the invariant of all locks |
| `Locks.MutualExclusion` | thread/sync.c:56-79 | in every state of every run at most one thread is between acquire and last release |
| `Locks.DepthIsExact` | thread/sync.c:56-79 | in every run holder_repeat_nr is the number of acquires the holder has still to undo, and only the holder has any |
| `Locks.NoLostWakeup` | thread/sync.c:22-53 | in every run, when a lock is free and has waiters, a thread taken off them can run and is about to look at the value |
| `Locks.OneListEach` | thread/sync.c:22-53 | in every run a thread's tag is on at most one list, and there once |
| `LockCalls.CountIsCalls` | thread/sync.c:56-79 | in every run holder_repeat_nr is the number of lock_acquire calls that the holder has returned from less the lock_release calls, and only with more of the first is a thread the holder |
| `LockCalls.FreeWhenUndone` | thread/sync.c:56-79 | in every run, when all calls have been undone the value is 1 and nobody holds or waits |
| `LockCalls.AcquireFree` | thread/sync.c:56-66 | lock_acquire of a free lock makes the caller the holder, once |
| `LockCalls.AcquireAgain` | thread/sync.c:56-66 | lock_acquire by the holder adds one to the count and does nothing else |
| `LockCalls.AcquireTaken` | thread/sync.c:22-66 | lock_acquire of a lock that another thread has puts the caller to sleep at the end of the waiters |
| `LockCalls.ReleaseInner` | thread/sync.c:69-79 | lock_release with a count above 1 takes one off and does nothing else |
| `LockCalls.ReleaseLast` | thread/sync.c:43-79 | lock_release with count 1 leaves the lock free and without a holder, with the first waiter off the list and ready |
| `LockCalls.ReleaseHandsOver` | thread/sync.c:22-79 | with waiters, the last release, the next switch of threads and the rest of the waiter's lock_acquire leave the first waiter the holder, and the others waiting in their order |
| `Locks.Machine.constructor` | thread/sync.c:9-19 | the system after thread_init satisfies the invariant |
| `Locks.Machine.LockAcquire` | thread/sync.c:56-66 | the test of the holder is the step it is modelled by |
| `Locks.Machine.LockRelease` | thread/sync.c:69-79 | the first assert holds and the step is the one it is modelled by |
| `Locks.Machine.Statement` | thread/sync.c:56-79 | each other statement is the step it is modelled by, with its assert |
| `Locks.Machine.SemaDown` | thread/sync.c:22-40 | one turn of the loop is the step it is modelled by, with its asserts |
| `Locks.Machine.SemaUp` | thread/sync.c:43-53 | the code is the step it is modelled by, with its asserts |
| `Processes.Int8` | userprog/wait_exit.c:163 | the exit status is the argument cut to eight bits with its sign |
| `Processes.TraverseForChild` | userprog/wait_exit.c:84-105 | the traversal finds the first child, or the first hanging child, if there is one |
| `Processes.AdoptChildren` | userprog/wait_exit.c:109-117 | the traversal gives exactly the children of the thread to init |
| `Processes.Pid2Thread` | thread/thread.c:367-383 | finds a thread with the pid exactly when there is one |
| `Processes.ScanPids` | thread/thread.c:47-53 | the lowest free pid, or none exactly when all 1024 are taken |
| `Processes.StepKeeps` | userprog/wait_exit.c:121-184 | every step of fork, wait and exit keeps the process tree sound |
| `Processes.ParentsAreAlive` | userprog/wait_exit.c:160-184 | in every run every parent_pid other than -1 names exactly one thread, which has not exited |
| `Processes.HangingIsChildless` | userprog/wait_exit.c:160-184 | in every run a HANGING thread has no children |
| `Processes.NoStaleChildren` | thread/thread.c:47-61 | in every run, when a pid is given back or taken, no thread has it as its parent |
| `Processes.WaitersAreWoken` | userprog/wait_exit.c:176-180 | in every run no WAITING parent other than init has a HANGING child |
| `Processes.WaitersHaveAChild` | userprog/wait_exit.c:145-155 | in every run a WAITING thread has a child to wait for |
| `Processes.ReapedOnce` | userprog/wait_exit.c:121-144 | in every run a child is handed to one wait at most, which returns its status cut to eight bits |
| `Processes.ReapsItsChild` | userprog/wait_exit.c:121-144 | only a wait hands a child out, and only a HANGING child of the caller, with its pid and status |
| `Processes.ReapedFromParent` | userprog/wait_exit.c:121-144 | in every run whatever was handed out was, at that moment, a HANGING child of the one that got it |
| `ProcessCalls.WaitExactly` | userprog/wait_exit.c:121-157 | once around the loop: a child is handed out exactly when one hangs, the caller sleeps exactly when it has children and none hangs, and comes back with -1 exactly when it has none |
| `ProcessCalls.WaitReaps` | userprog/wait_exit.c:128-144 | to its return a wait with a hanging child takes one such child off the list, frees its pid and changes no other thread |
| `ProcessCalls.ExitHangs` | userprog/wait_exit.c:160-184 | to its end sys_exit leaves the caller HANGING with its status cut to eight bits, its children with init, a waiting parent awake, and all else as it was |
| `ProcessCalls.ForkAdds` | userprog/fork.c:14-41 | the child is last on the list, alive, with the lowest free pid and the caller as its parent, and no other thread changes |
| `Processes.NoneForgotten` | userprog/wait_exit.c:121-184 | in every run a thread that called exit is still in the list or has been handed to a wait |
| `Processes.StrandedExactly` | userprog/wait_exit.c:109-117 | init comes to sleep next to a hanging child exactly when a thread with a hanging child exits while init waits |
| `Processes.InitCanMissAnOrphan` | userprog/wait_exit.c:109-117 | a run in which that happens |
| `Processes.ProcessTable.constructor` | thread/thread.c:386-401 | the process tree as thread_init leaves it |
| `Processes.ProcessTable.SysWait` | userprog/wait_exit.c:121-157 | once around the loop is the step it is modelled by |
| `Processes.ProcessTable.SysExit` | userprog/wait_exit.c:160-171 | the first half of sys_exit is the step it is modelled by |
| `Processes.ProcessTable.Hang` | userprog/wait_exit.c:175-183 | the parent looked up is there, is woken if it waits, and the thread hangs |
| `Processes.AddKeeps` | userprog/fork.c:14-41 | a new child enters the tree with a pid that is its own and its parent alive |
| `Paging.PdePtrReaches` | kernel/memory.c:107-114 | through the self-map pde_ptr reaches the directory entry of the walk, always |
| `Paging.PtePtrReaches` | kernel/memory.c:93-104 | through the self-map pte_ptr reaches the table entry of the walk exactly when the directory entry is present, and faults otherwise |
| `Paging.V2PIsTheWalk` | kernel/memory.c:293-299 | for a mapped address addr_v2p is where the processor goes |
| `Paging.MapsThePage` | kernel/memory.c:132-172 | with the table present, the entry written maps the page to the frame and moves no page apart from it |
| `Paging.ClearTable` | kernel/memory.c:163-167 | the memset through the self-map clears exactly the words of the new table |
| `Paging.MakesTheTable` | kernel/memory.c:157-171 | with no table, the page maps to the frame, every other page of that directory entry faults, all else but the window of the self-map walks as before, and the self-map is kept |
| `Paging.PageTableAdd` | kernel/memory.c:132-172 | the code, through the self-map and in both branches, leaves those words; the assert fires exactly when the entry is present |
| `Paging.UnmapsThePage` | kernel/memory.c:443-449 | clearing the present bit makes the page fault and moves no page apart from it |
| `AddressSpace.PfreeUndoesPalloc` | kernel/memory.c:425-440 | pfree finds the right pool from the address alone and gives back exactly the frame that palloc took |
| `AddressSpace.FirstRunIsTheScan` | kernel/memory.c:54-90 | the run of virtual pages is the one that bitmap_scan finds, and there is none exactly when it finds none |
| `AddressSpace.MapKeeps` | kernel/memory.c:132-172 | one page gets a frame of its own, and a table if it has none |
| `AddressSpace.FrameOf` | kernel/memory.c:476-532 | a mapped page has a frame of the pool that the asserts of mfree_page ask for |
| `AddressSpace.MallocKeeps` | kernel/memory.c:175-207 | an allocation gives the lowest run of fresh pages, each with its own frame, and changes nothing else |
| `AddressSpace.PallocExactly` | kernel/memory.c:118-129 | palloc finds a frame exactly when one of the pool is free, and takes one that is |
| `AddressSpace.MapPagesExactly` | kernel/memory.c:188-206 | mapping a run halts exactly when the free frames of the pool are fewer than its pages or those of the kernel fewer than the tables it lacks, the two added up for the kernel |
| `AddressSpace.MallocExactly` | kernel/memory.c:54-207 | for every state: NULL exactly when some bit is clear and no cnt bits in a row are; a halt exactly for a bad count, a full bitmap, a lowest run behind the stack page, or too few frames; otherwise the lowest run |
| `AddressSpace.MfreeKeeps` | kernel/memory.c:476-532 | a free takes exactly those pages, bits and frames back |
| `AddressSpace.MfreeUndoesMalloc` | kernel/memory.c:476-532 | malloc_page then mfree_page restores bits, entries and frames, but for tables made on the way |
| `AddressSpace.PoolsNeverMeet` | kernel/memory.c:587-656 | for any amount of memory, with the widths of the variables, the pools share no frame and the bitmaps fit in their four pages |
| `AddressSpace.FramesExist` | kernel/memory.c:587-656 | the frames of the pools exist exactly when there are at least two megabytes |
| `AddressSpace.StepKeeps` | kernel/memory.c:175-532 | every allocation, free and new process keeps the invariant of all address spaces |
| `AddressSpace.AddressSpacesAreSound` | kernel/memory.c:175-532 | over every run and for any memory: a virtual bit is set exactly when its entry is present, no two pages share a frame, and kernel and user frames do not mix |
| `AddressSpace.PageAllocator.constructor` | kernel/memory.c:587-656 | the state after mem_init satisfies the invariant |
| `AddressSpace.PageAllocator.TakeFrame` | kernel/memory.c:118-129 | the scan takes the lowest free frame of the pool |
| `AddressSpace.PageAllocator.MapPage` | kernel/memory.c:132-172 | the code maps one page as MapOne says |
| `AddressSpace.PageAllocator.MallocPages` | kernel/memory.c:175-207 | the loops allocate as MallocPage says, with NULL and halts exactly under the conditions of MallocExactly |
| `AddressSpace.PageAllocator.MfreePages` | kernel/memory.c:476-532 | the loops free as MfreePage says |
| `AddressSpace.ScanRun` | kernel/memory.c:54-90 | the scan stops at the lowest place of the run |
| `PageWords.DirOfPage` | kernel/memory.c:19-20 | a directory entry covers 1024 pages in a row |
| `PageWords.TableRefines` | kernel/memory.c:157-167 | the words of a new table are what EnsureTable says, and its frame is no table and no directory yet |
| `PageWords.InstallRefines` | kernel/memory.c:144-151 | the word of a new entry is what Installed says, and the entry was absent |
| `PageWords.UnmapRefines` | kernel/memory.c:443-449 | clearing the present bit through the self-map is what UnmapOne says |
| `PageWords.MapRefines` | kernel/memory.c:132-172 | page_table_add on the words, in both branches, is MapOne, and its assert holds |
| `PageWords.OtherSpacesStay` | kernel/memory.c:132-172 | words written in the frames of one space change no walk and no entry of any other space |
| `PageWords.WorldMaps` | kernel/memory.c:132-172 | after mapping a page the processor finds in every space exactly the pages that the pools record, in their frames |
| `PageWords.WorldUnmaps` | kernel/memory.c:443-449 | the same after unmapping a page that is no directory |
| `PageWords.WorldStarts` | userprog/process.c:68-87 | the same for a new process with the directory that create_page_dir makes |
| `PageRuns.MapPagesWorld` | kernel/memory.c:188-206 | the loop of malloc_page keeps the words of all spaces in line with the pools |
| `PageRuns.UnmapPagesWorld` | kernel/memory.c:476-532 | the loops of mfree_page keep them in line |
| `PageRuns.DataStays` | kernel/memory.c:132-172 | a store to any mapped page that is no directory changes no walk of any space |
| `PageRuns.NewDirIs` | userprog/process.c:68-87 | the words that create_page_dir writes are a directory with the kernel's entries and itself |
| `PageRuns.SetupPage` | boot/loader.S:198-252 | the loops leave the directory, the first 256 entries of the first table and nothing else |
| `PageRuns.BootExactly` | boot/loader.S:198-252 | the words say what the pools say at the start exactly when the memory of the tables had no present bit where the heap will be |
| `PageRuns.StepKeeps` | kernel/memory.c:175-532 | allocations, frees, new processes and stores keep words and pools in line |
| `PageRuns.WalksAreSound` | kernel/memory.c:175-532 | over every run from the loader on: in every space the processor finds a page exactly when its bit is set, no two pages lead to one frame, and no address of a process leads to a frame of the kernel |
| `PoolLocks.StepExactly` | kernel/memory.c:118-129 | frames stay unique over a step exactly when it does not set a bit that is set |
| `PoolLocks.UniqueExactly` | kernel/memory.c:118-129 | over any run of any threads under any locks, frames are unique throughout exactly when no bit is set twice |
| `PoolLocks.TakesOne` | kernel/memory.c:118-129 | palloc with nobody between takes exactly the lowest free frame and leaves the lock free |
| `PoolLocks.OneLockSuffices` | kernel/memory.c:211-220 | with one lock for all that take frames from the pool this never happens |
| `PoolLocks.OneStepSuffices` | kernel/memory.c:118-129 | with nobody running between scan and set it never happens, whatever the locks |
| `PoolLocks.TwoLocksShare` | kernel/memory.c:159-161 | with the two locks of the source, from any pool with a frame left, a run that gives one frame to the kernel and to a page table |
| `Heap.BlockInArena` | kernel/memory.c:302-311 | block2arena inverts arena2block, and a block stays inside its page and behind the header |
| `Heap.ArenaOfBlock` | kernel/memory.c:302-311 | every block address is the block of its arena that its index says |
| `Heap.BlocksApart` | kernel/memory.c:302-305 | two blocks of one size class do not overlap |
| `Heap.DescOf` | kernel/memory.c:375-381 | the smallest size class that has room |
| `Heap.BlockDescInit` | kernel/memory.c:659-675 | the loop makes seven sizes, 16 doubled so many times, with as many blocks to an arena as fit in its page behind the header |
| `Heap.NeedsExactly` | kernel/memory.c:348-385 | a small request asks for a page exactly when no arena of its class counts a free block, a large one for the fewest pages that hold it with its header |
| `Heap.MallocKeeps` | kernel/memory.c:314-422 | sys_malloc hands out a block that was not live, with room for the size, and changes no other; NULL exactly when the size is turned away or there are no pages |
| `Heap.FullIsFree` | kernel/memory.c:570-578 | when the count says all, every block of the arena is on the free list, as the loop asserts |
| `Heap.FreeKeeps` | kernel/memory.c:535-584 | sys_free takes the block back, and its page goes back exactly when no other block of it is live |
| `Heap.CountIsExact` | kernel/memory.c:549-581 | the count of an arena is the number of its blocks on the free list, and never all of them |
| `Heap.FindDesc` | kernel/memory.c:375-381 | the loop finds the smallest class that has room |
| `Heap.CutBlocks` | kernel/memory.c:405-410 | the loop appends every block of the new arena once, with its assert |
| `Heap.TakeBlocksOff` | kernel/memory.c:573-578 | the loop takes all blocks of the arena off the list and leaves the others in order, with its assert |
| `HeapSpace.GivenIsFresh` | kernel/memory.c:348-385 | pages that were not mapped are no part of the heap |
| `HeapSpace.MallocKeeps` | kernel/memory.c:314-422 | sys_malloc over malloc_page: NULL and halts exactly when the size, the bits of the space or the free frames say so, and otherwise a block that was not live in mapped pages, with every other space as it was |
| `HeapSpace.FreeKeeps` | kernel/memory.c:535-584 | sys_free only gives back pages that are mapped, and only those of an arena with no live block |
| `HeapSpace.FreeUndoesMalloc` | kernel/memory.c:314-584 | sys_free of what sys_malloc has just handed out gives back exactly the pages that it took: live blocks, entries, bits and user frames are as before |
| `HeapSpace.MallocThenFree` | kernel/memory.c:314-584 | the two calls as a run leave the live blocks and the mapped pages of every space as they were |
| `HeapSpace.StepKeeps` | kernel/memory.c:175-584 | sys_malloc, sys_free, other page calls and new processes keep all heaps in order and backed by mapped pages |
| `HeapSpace.HeapIsSafe` | kernel/memory.c:314-584 | over every run from boot with other page calls between: every live block has room for its size, is clear of other live blocks and of all headers, lies in mapped pages, and shares no frame with a live block of another space |
| `HeapSpace.LiveCanBeFreed` | kernel/memory.c:535-584 | after every such run any live block can be freed, and mfree_page is called for mapped pages only |
| `HeapSpace.CountsAreExact` | kernel/memory.c:314-584 | over every such run the count of an arena is the number of its blocks on the free list, and never all of them |
| `HeapSpace.Allocator.constructor` | kernel/memory.c:659-675 | the descriptors start with empty lists |
| `HeapSpace.Allocator.SysMalloc` | kernel/memory.c:314-422 | the code, calling the page allocator, does what Malloc says, with its NULL and its halts |
| `HeapSpace.Allocator.SysFree` | kernel/memory.c:535-584 | the code, calling the page allocator, does what Free says |
| `Ide.HandshakeIsExact` | device/ide.c:235-249 | under any pattern of interrupts expecting_intr and a full disk_done never hold together, no assert of the semaphore fires, each command uses one completion, and a sleeper has an interrupt coming |
| `Ide.CommandCompletes` | device/ide.c:151-249 | a command completes with one interrupt, whether it comes before or after the thread goes to sleep, and leaves the channel as it was |
| `Ide.IdeChannel.CommandOut` | device/ide.c:106-111 | the code is the step it is modelled by |
| `Ide.IdeChannel.Down` | thread/sync.c:22-40 | one turn of the loop on disk_done, with its assert |
| `Ide.IdeChannel.Handler` | device/ide.c:235-249 | the handler with sema_up, with its asserts |
| `Ide.Commands` | device/ide.c:151-192 | for every count the commands name each sector of the transfer once and in order, though 256 is written as 0; halts exactly when a command would start beyond the disk |
| `Ide.Read` | device/ide.c:151-192 | the buffer gets the sectors in their order |
| `Ide.Write` | device/ide.c:195-232 | the sectors of the transfer get the buffer and no other changes |
| `IoQueue.LengthMeans` | device/ioqueue.c:14-28 | the length says exactly when the ring is empty and when it is full |
| `IoQueue.PutAppends` | device/ioqueue.c:68-86 | a put appends to the contents |
| `IoQueue.GetTakes` | device/ioqueue.c:45-65 | a get takes the oldest byte |
| `IoQueue.StepKeeps` | device/ioqueue.c:31-86 | every step of every interleaving keeps the queue a FIFO, and the assert of ioq_wait holds |
| `IoQueue.RingIsFifo` | device/ioqueue.c:45-97 | for every interleaving the bytes taken are a prefix of those put, and the length is the difference |
| `IoQueue.RegisteredMeansEmpty` | device/keyboard.c:203-206 | with one consumer and a producer that tests for full, a registered consumer means an empty ring |
| `IoQueue.MissesExactly` | device/ioqueue.c:45-86 | a step leaves a consumer registered on a ring that is not empty, or a producer on one that is not full, exactly when a thread gets the lock after the ring has changed |
| `IoQueue.WaitsInVainExactly` | device/ioqueue.c:45-86 | over any run of any threads it happens exactly when such a step is in the run |
| `IoQueue.TwoConsumersMiss` | device/ioqueue.c:45-65 | a run with two consumers in which one is registered while a byte lies in the ring |
| `IoQueue.OneConsumerMisses` | device/ioqueue.c:45-86 | the same with one consumer and one producer that sleeps |
| `IoQueue.TwoProducersMiss` | device/ioqueue.c:68-86 | a run with two producers in which one is registered while the ring has room |
| `IoQueue.IoRing.constructor` | device/ioqueue.c:7-11 | the ring is empty |
| `IoQueue.IoRing.Len` | device/ioqueue.c:89-97 | the number of bytes in the ring |
| `IoQueue.IoRing.IsFull` | device/ioqueue.c:19-22 | true exactly with 2047 bytes |
| `IoQueue.IoRing.IsEmpty` | device/ioqueue.c:25-28 | true exactly with none |
| `IoQueue.IoRing.PutByte` | device/ioqueue.c:79-85 | the byte is last |
| `IoQueue.IoRing.GetByte` | device/ioqueue.c:57-64 | the first byte is out |
| `IoQueue.IoRing.PipeRead` | shell/pipe.c:41-60 | takes the oldest bytes up to the count and never has to wait |
| `IoQueue.IoRing.PipeWrite` | shell/pipe.c:63-81 | appends the data; has to wait exactly when the count is more than 2047 less the length |

## Left out

- Boot code, the context switch, interrupt entry, descriptor tables, port input and output, the console and the screen.
- The keyboard's scan codes, the shell's line editor and its commands, and loading programs: glue or user interface.
- Copying of memory, stack and heap descriptors in fork: fork is the step that adds a child to the process tree.
- `busy_wait`, `printf` and string helpers, and the sizes that the disk reports.
- Out-of-memory rollback: a full bitmap halts in bitmap_scan before the rollback code is reached.
- Directories beyond the twelve direct blocks: the code never loads the block table of a directory, so an insert there is the result `BeyondDirect`.
- `write_deny`, and descriptors shared across fork.
- The copy of the bitmaps on the disk (`bitmap_sync`): the model has the bitmaps in memory only.
- The scratch buffer that file_write hands to inode_sync: it is one sector, and inode_sync may read two; the model gives inode_sync its own.
- The extra bit that `partition_format` clears at the end of the block bitmap: the pool has the valid bits only.
- Path components of 16 characters and more: they overrun the name buffers of the source.
- Page conservation over the exit of a process: the source rounds the bitmap's pages down when it frees and up when it allocates.
- thread_exit reads the pid from a PCB page that it has just given back: the model uses the pid that was there.
- Locks.DepthIsExact: does not model the wrap-around of holder_repeat_nr at 2 to the 32nd nested acquires.
- Paging.MapsThePage: is about an entry whose table is present; `Paging.MakesTheTable` is about the other branch.
- AddressSpace.FirstRunIsTheScan: takes the bit behind a virtual bitmap, which the scan for several pages also looks at, as set; `Bitmap.ScanInBounds` is about that bit.
- Heap.MallocKeeps: takes a page that is given as fresh; `HeapSpace.MallocKeeps` proves that of malloc_page.
- FileSystem.Run: works on the inodes of the partition; `OpenInodes.OpenPartition.Run` says exactly when the nodes of the list show them.
- Persistence.RunStored: works on the inodes of the partition, as `FileSystem.Run` does.
- PageWords.WorldUnmaps: is about pages that hold no page directory; freeing a directory belongs to the exit of a process.
- AddressSpace.AddressSpacesAreSound: takes a call as one step; `PoolLocks.UniqueExactly` says when frames stay unique if it is not.
- PoolLocks.UniqueExactly: takes bitmap_set as one step, though it reads and writes a byte.
- AddressSpace.MallocKeeps: says nothing of the pages mapped before a halt in the middle of an allocation.
- Ide.Write: takes the sectors as whole values and does not model the controller's registers.
- Ide.Read: takes the sectors as whole values and does not model the controller's registers.
- Scheduler.ExitKeeps: leaves out that thread_exit may itself sleep on the locks of the page and pid pools.
