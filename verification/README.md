# A verified model of the Linux 0.11 kernel core

The repository is Linux 0.11 in C++: a small Unix kernel whose hard parts change tables, lists and counters in place. This
project models those parts in Dafny and proves what they are for. The kernel is never preempted in kernel mode, so what a task
does between two sleeps is one step. `MachineRuns`, `MachineStores`, `ReservedBlocks`, `LinkCounts`, `Pipes`, `WaitQueues`,
`BufferCache`, `BlockRequests` and `FileTables` split calls where they sleep: a sleep is a point between two steps of a run, or
a method about which its caller knows only what the other tasks guarantee. `FileData`, `FileIo`, `Truncate`, `FileSystem` and the
lookups of `Directories` take a whole call as one step, although `bread` and `getblk` can sleep inside; the lemmas about what is
done after a lookup (`Directories.EnterLate`, `Directories.RemoveLate`, `ReservedBlocks.SettleKeeps`) say when such a call is still
right.

| file | models |
|---|---|
| `Memory` (module `Frames`), `Machine`, `MachineSteps`, `MachineOps`, `MachineFree`, `MachineFaults`, `MachineStores`, `MachineRuns`, `MachineDirty`, `MachineRoom`, `MemoryManager` | page tables and `mem_map`: copy-on-write, sharing, missing pages, fork and exit, stores of the kernel into user pages, the dirty bit, how much memory each entry needs |
| `BlockTree`, `FileData`, `ReservedBlocks`, `FileIo`, `Truncate`, `FileSystem` | the zone bitmap, block trees with two levels of indirection, `file_read`, `file_write`, `truncate` |
| `Directories`, `DirectoryFiles`, `LinkCounts` | directory entries as a map from names and as bytes of a file, link counts over interleaved calls |
| `Links`, `Linked` | the linked lists the kernel threads through its tables |
| `BufferCache` | hash chains, the free list and the sleeps of `getblk` |
| `KernelMalloc` | `malloc` and `free_s` of the kernel |
| `Elevator`, `BlockRequests` | the order of block requests, the request table |
| `Scheduler`, `Timers`, `WaitQueues` | `schedule`, the timer list, `sleep_on` and `wake_up` |
| `ExecArgs` | the argument area of `execve` |
| `Rings`, `Pipes`, `TtyLines` | pipes and the terminal line discipline |
| `FileTables` | counts of open files over open, dup, pipe, fork, exit and close |
| `Numbers` | `number` of `vsprintf` |
| `Basics` | a few shared types and sizes |

Where the source updates arrays, fields and links, there is a class whose methods make the same updates, and each method is
proved equal to a function on plain values (`Snap() == ...(old(Snap()))`, `Contents`, `List`, `Queue`); the theorems are about
those functions and about whole runs of them. `panic()` and `oom()` do not return: a panic is a precondition that the callers
are proved to meet, or a result for which nothing is promised; running out of memory is a result.

Some claims one might make about the code are false; the model keeps the code, shows an input for which they fail, and proves
exactly when they hold:

- A name that is unlinked by two tasks at once is unlinked twice: both find the entry before they sleep in `iget`, and the second
  takes away a link that belongs to another entry (`LinkCounts.UnlinkTwice`); of a file with one link the first may free the inode
  before the second has taken hold of it (`LinkCounts.StaleNumber`). A step of any call, `iget` and `iput` included, keeps counts,
  references and the forest of directories right if and only if what the call found before it slept is still so
  (`LinkCounts.StepKeeps`).
- Two tasks that create the same block of a file lose a zone (`ReservedBlocks.CreatedTwice`), and so does one that extends a file
  while another truncates it (`ReservedBlocks.TruncatedAway`): storing a zone number is right if and only if, after the sleep, the
  place is still empty and the indirect block read before it is still the one of the place (`ReservedBlocks.SettleKeeps`).
- Two tasks that create the same name enter it twice (`Directories.EnteredTwice`): entering is right if and only if the name is
  still not there, clearing an entry if and only if it still holds the name (`Directories.EnterLate`, `Directories.RemoveLate`).
- A page that `write_verify` has made a task's own can be shared again while the task sleeps, since it is clean, and the kernel's
  store then shows in another task (`MachineStores.SharedMeanwhile`): the store is the task's own if and only if the count of the
  frame is still 1 (`MachineRuns.VerifiedStore`).
- A page that was stored into can come to another task after all: `un_wp_page` enters a copy as clean, and `try_to_share` takes
  clean pages (`MachineDirty.CopiedIsTaken`). A page stays dirty if and only if it is neither unmapped nor copied by `write_verify`
  (`MachineDirty.StepDirty`), and while it does no other task is ever given its frame (`MachineDirty.StoredNeverShared`).
- The increment of `i_nlinks` in `sys_link` and `sys_mkdir` is unchecked, so that 256 entries count as none (`LinkCounts.LinkRunsOver`,
  `LinkCounts.MkdirRunsOver`); counts stay exact if and only if the byte was below 255 (`LinkCounts.LinkKeeps`,
  `LinkCounts.MkdirKeeps`).
- The kernel's `malloc` compares the length as a signed number and has sixteen bytes for a length of 2^31
  (`KernelMalloc.HugeIsSmall`); an object is large enough if and only if the length is below 2^31 (`KernelMalloc.Allocator.Malloc`).
- A kernel timer does not fire on time when another is inserted in front of it (`Timers.LateExample`); it is late by exactly the
  inserted deltas (`Timers.FiresLate`), and on time if and only if every timer added meanwhile asks for more than it has left
  (`Timers.AddedFires`).
- Counters are not bounded by twice the task's own priority, since `sys_nice` may have lowered it (`Scheduler.NicedBelow`); they are bounded by twice any
  bound that no priority has exceeded (`Scheduler.StepWithin`).
- `dup2(fd, fd)` closes the file and fails (`FileTables.Files.Dup2`).

## Model

| member | source | states |
|---|---|---|
| `MachineRuns.RunRefines` | linux/mm/memory.cc:106-399 | Over every run of forks, exits, stores, write verifications, missing pages, put_page of held pages, stores of the kernel into unshared user pages and other kernel page use, each step is the same step on memories that are private from the start (fork copies, a store changes one task's page), and the counts, the write bits and the placement of tables stay right |
| `MachineRuns.RunIsolates` | linux/mm/memory.cc:151-239 | What a task sees at a place that no step of a run touches on its behalf never changes, whatever other tasks share its frames and store to them |
| `MachineRuns.StepRefines` | linux/mm/memory.cc:106-399 | One kernel entry keeps the invariant and is one step on private memories; when memory runs out no task's memory has changed |
| `MachineRuns.ForkStepGood` | linux/kernel/fork.cc:40-124 | A fork makes the child see a copy of the parent; one that fails anywhere restores every count, every held page and every task's memory |
| `MachineRuns.VerifiedStore` | linux/mm/memory.cc:262-273 | write_verify, then any run of other entries while the task sleeps, then the kernel's store: the page is still there and unchanged, and the store is the task's own if and only if the frame's count is still 1, or the word stored is the one there; an entry still writable is enough |
| `MachineStores.PutPrivate` | linux/mm/memory.cc:262-273 | A store in kernel mode, which ignores the write bit, is the task's own if and only if the frame's count is 1 or nothing changes |
| `MachineStores.PutThroughStep` | linux/mm/memory.cc:293-336 | Such a store appears in the memory of every task that maps the frame, and nowhere else |
| `MachineStores.SharedMeanwhile` | linux/mm/memory.cc:293-336 | A verified page that is still clean is taken over by try_to_share of another task, and the store then shows in both tasks |
| `MachineDirty.StoredNeverShared` | linux/mm/memory.cc:293-336 | After a store of a task or of the kernel into a page, and then any run in which the page is neither unmapped nor copied by write_verify, no missing page of any task comes to be its frame: the dirty bit is still set, and so it is in every entry a fork has copied |
| `MachineDirty.StepDirty` | linux/mm/memory.cc:222-273 | A dirty page of a task stays dirty through a kernel entry if and only if the entry does not unmap it and is not a write_verify that copies it |
| `MachineDirty.StepAgrees` | linux/mm/memory.cc:151-399 | Every kernel entry keeps all mappings of a frame dirty together or clean together, and changes the dirty bit of no place but the one it is for |
| `MachineDirty.CopiedIsTaken` | linux/mm/memory.cc:222-239 | A stored-into page that a fork shares is entered clean when write_verify copies it, and the next task with the same executable that misses it is shown what was stored |
| `MachineRoom.ForkRoom` | linux/kernel/fork.cc:80-124 | A fork succeeds if and only if there are free frames for the task structure and for each page table of the parent |
| `MachineRoom.NoPageRoom` | linux/mm/memory.cc:367-399 | do_no_page succeeds if and only if there are frames for the page, unless it is shared, and for the page table, unless it is there |
| `MachineRoom.NewPageRoom` | linux/mm/memory.cc:275-283 | A new page succeeds if and only if one frame is free, and one more when the page table is missing |
| `MachineRoom.UnWpRoom` | linux/mm/memory.cc:222-239 | un_wp_page runs out of memory if and only if no frame is free and the page has other users or is low memory |
| `MachineRoom.GetFreeRoom` | linux/mm/memory.cc:63-84 | get_free_page succeeds if and only if a frame is free, and takes exactly one |
| `MachineFree.CopyThenFree` | linux/kernel/fork.cc:57-61 | copy_page_tables that ran out of memory part way, followed by free_page_tables, restores mem_map and all memories exactly |
| `MachineOps.CopyTablesStep` | linux/mm/memory.cc:151-190 | After copy_page_tables the invariant holds and, on success, the child shows at every place what the parent shows; on failure nothing outside the child changed |
| `MachineOps.CopyEntryStep` | linux/mm/memory.cc:166-187 | Copying one entry protects the parent's page, shares it read-only and counts it, so that both show the same page; low memory is not counted |
| `MachineFree.FreeTablesStep` | linux/mm/memory.cc:106-132 | free_page_tables meets no panic in free_page, leaves no table in the range and touches no other task |
| `MachineFree.FreeSpaces` | linux/mm/memory.cc:106-132 | What is left of all memories after free_page_tables is exactly what lay outside the range |
| `MachineFree.SameReferencesSameCounts` | linux/mm/memory.cc:90-100 | Two sound states with the same references have the same mem_map, so the counts are a function of who refers to what |
| `MachineFaults.UnWpStep` | linux/mm/memory.cc:222-239 | Un-write-protecting makes the page the task's own and writable with unchanged contents, whether the frame is reused (count 1) or copied; out of memory changes nothing |
| `MachineFaults.UserStoreStep` | linux/mm/memory.cc:222-239 | A store, with the fault it may cause, changes exactly one word of what the storing task sees and nothing any other task sees |
| `MachineFaults.PutPageStep` | linux/mm/memory.cc:198-220 | put_page hands a held page over to the task; when there is no page for the table the state is unchanged |
| `MachineFaults.NewPageStep` | linux/mm/memory.cc:275-283 | A missing page appears with the wanted contents; when memory runs out every count and every page is as before |
| `MachineFaults.TryToShareStep` | linux/mm/memory.cc:293-336 | Sharing lets the task see what the other task sees there, read-only for both, and counts it; it comes to that exactly when the other task's page is present, clean and above low memory and there is a page table or a frame for one; a refusal changes nothing at all |
| `MachineFaults.SharePageStep` | linux/mm/memory.cc:346-365 | share_page takes the clean page of the last other task with the same executable that has one at the place, and nothing is shared exactly when there is none |
| `MachineFaults.NoPageStep` | linux/mm/memory.cc:367-399 | After do_no_page the place shows zeros outside the executable; else, if the inode is in use elsewhere, the clean page of the last other task that has one; else the executable's page; on failure nothing changed |
| `MachineSteps.TakeStep` | linux/mm/memory.cc:63-84 | A frame handed out was named by nobody, is zeroed, has count 1, and no memory changes |
| `MachineSteps.LeavePageStep` | linux/mm/memory.cc:118-121 | Unmapping a page keeps the counts exact and takes exactly that place from that task |
| `MachineSteps.RelabelStep` | linux/mm/memory.cc:176-180 | An entry may be made read-only always, and writable when its frame has count 1; the memory shown is unchanged |
| `MachineSteps.StoreStep` | linux/mm/memory.cc:222-239 | A store through a writable entry reaches no other task's memory |
| `Machine.TableAlone` | linux/mm/memory.cc:198-220 | The frame of a page table is named by its directory entry and by nothing else |
| `Machine.PageAlone` | linux/mm/memory.cc:226-230 | A page whose count is 1, or that is writable above low memory, is mapped exactly once |
| `Machine.PagePlaced` | linux/mm/memory.cc:90-100 | A mapped page is read-only low memory or a managed frame with a positive count |
| `Frames.CountBound` | linux/mm/memory.cc:184-186 | At most 63 references can name a frame, so the byte in mem_map never overflows and never reaches USED |
| `Frames.AddRef` | linux/mm/memory.cc:184-186 | Counting a new reference keeps mem_map equal to the number of references |
| `Frames.DropRef` | linux/mm/memory.cc:90-100 | Dropping a reference finds a positive count and keeps mem_map equal to the number of references |
| `Frames.MoveRef` | linux/mm/memory.cc:198-220 | The only reference to a frame may change hands without a change of its count |
| `MemoryManager.InitialSound` | linux/mm/memory.cc:401-413 | Memory as mem_init leaves it satisfies the invariant, and the mappings of every frame agree in their dirty bits |
| `MemoryManager.Mm.constructor` | linux/mm/memory.cc:401-413 | mem_init: exactly the frames from start_mem to end_mem are free |
| `MemoryManager.Mm.GetFreePage` | linux/mm/memory.cc:63-84 | The backward scan finds the highest free frame, zeroes it and marks it, or finds none |
| `MemoryManager.Mm.FreeFrame` | linux/mm/memory.cc:90-100 | free_page as an update of mem_map; its panics are the precondition, met by every caller |
| `MemoryManager.Mm.FreePageTables` | linux/mm/memory.cc:106-132 | The three nested loops in place compute FreeTables, about which FreeTablesStep speaks |
| `MemoryManager.Mm.CopyPageTables` | linux/mm/memory.cc:151-190 | The loops in place compute CopyTables, about which CopyTablesStep speaks |
| `MemoryManager.Mm.CopyOneEntry` | linux/mm/memory.cc:175-187 | The inner loop body in place, with the order of its two stores shown not to matter |
| `MemoryManager.Mm.PutPageAt` | linux/mm/memory.cc:198-220 | put_page in place computes PutPage |
| `MemoryManager.Mm.UnWpPage` | linux/mm/memory.cc:222-239 | un_wp_page in place computes UnWp, the copy coming after the entry is switched |
| `MemoryManager.Mm.WriteVerify` | linux/mm/memory.cc:262-273 | write_verify in place computes VerifyStep |
| `MemoryManager.Mm.ShareWith` | linux/mm/memory.cc:293-336 | try_to_share in place computes TryToShare |
| `MemoryManager.Mm.FindSharer` | linux/mm/memory.cc:346-365 | The loop over the tasks computes SharePage |
| `MemoryManager.Mm.SupplyPage` | linux/mm/memory.cc:275-283 | get_empty_page in place computes NewPage, giving the page back on failure |
| `MemoryManager.Mm.DoNoPage` | linux/mm/memory.cc:367-399 | do_no_page in place computes NoPage |
| `MemoryManager.Mm.ForkMemory` | linux/kernel/fork.cc:80-124 | The memory part of copy_process with copy_mem computes ForkStep, undoing everything on failure |
| `BlockTree.GrowInv` | linux/fs/inode.cc:82-138 | Entering a zeroed free block at an open place keeps the forest of block trees: every block is at one place only, and a zone is marked used exactly when some file holds it |
| `BlockTree.GrowAt` | linux/fs/inode.cc:82-138 | Entering a block changes the logical-to-physical map at that place only; this needs the block to have been zeroed |
| `BlockTree.StoredAt` | linux/fs/inode.cc:82-138 | Storing a zeroed block at any place changes that place, empties what was below it, and changes no other place of any file |
| `ReservedBlocks.SettleKeeps` | linux/fs/inode.cc:82-138 | create_block when other tasks run while new_block sleeps, storing through the indirect block read before the sleep: the reserved zone gets to its place, every zone stays at one place and none is lost, if and only if the file is still one, the place is still empty and that indirect block is still the one of the place; then no byte of any file changes |
| `ReservedBlocks.ReserveKeeps` | linux/fs/bitmap.cc:75-96 | new_block before it sleeps reserves a zone that no file holds and no other task has reserved |
| `ReservedBlocks.Overwritten` | linux/fs/inode.cc:101-106 | If the place has been filled meanwhile, the zone that was there stays marked used and no file holds it |
| `ReservedBlocks.CreatedTwice` | linux/fs/bitmap.cc:90-104 | Two tasks create the same block of a file: the invariant holds before and fails after, one zone being lost |
| `ReservedBlocks.ParentGone` | linux/fs/inode.cc:101-106 | After a truncate during the sleep the place reads empty, but the zone number goes into a block no file has, and the zone is lost |
| `ReservedBlocks.TruncatedAway` | linux/fs/inode.cc:101-106 | The same at a concrete device: a file with one indirect block, extended and truncated at once |
| `ReservedBlocks.BusyFrees` | linux/fs/bitmap.cc:56-62 | truncate of a file whose indirect block is in use clears the bits of all its zones but that one, as free_block returns early for it |
| `ReservedBlocks.CellSettled` | linux/fs/inode.cc:82-89 | Without a sleep in between, reserving and storing is what Cell does |
| `BlockTree.NewBlockFresh` | linux/fs/bitmap.cc:75-105 | new_block returns a zone no file held, zeroed, or 0 exactly when all are used |
| `BlockTree.PutZoneReads` | linux/fs/inode.cc:101-106 | A zone number stored in an indirect block is read back, low byte first, and its neighbours are unchanged |
| `FileData.BmapStep` | linux/fs/inode.cc:73-139 | bmap and create_block return the zone at the logical block's place, change no byte of any file and no other file's map; create_block fails only on a full device |
| `FileData.BmapReads` | linux/fs/inode.cc:82-138 | What bmap reads from the disk: block i below 7 in the inode, block 7 + i in entry i of the block of zone 7, block 519 + 512 i + j in entry j of the block that entry i of the block of zone 8 names |
| `FileData.PlacesInOrder` | linux/fs/inode.cc:82-138 | The blocks of a file are the leaves of its tree from left to right |
| `FileData.EveryLeaf` | linux/fs/inode.cc:82-138 | Every leaf of the tree is the place of exactly one block |
| `FileData.BmapInjective` | linux/fs/inode.cc:141-144 | No two logical blocks, of one file or of two, ever share a zone |
| `FileData.PlaceInjective` | linux/fs/inode.cc:82-120 | Direct, single and double indirect places do not overlap |
| `FileData.CellStep` | linux/fs/inode.cc:82-89 | Filling one empty place changes no byte of any file |
| `FileData.StoreInBlock` | linux/fs/file_dev.cc:77-79 | Storing bytes in a data block changes exactly those bytes of that file |
| `FileIo.WriteStep` | linux/fs/file_dev.cc:48-90 | file_write stores exactly the first w bytes at the position, sets the size to the larger of old size and end, and changes nothing else of any file; it is short only when the device is full |
| `FileIo.ReadStep` | linux/fs/file_dev.cc:17-46 | file_read returns the bytes of the file at the position, zeros where no block is mapped, across all levels of indirection |
| `FileIo.ReadBack` | linux/fs/file_dev.cc:17-90 | Reading what was just written gives it back, and every other part of every file reads as before |
| `Truncate.TruncateFrees` | linux/fs/truncate.cc:47-64 | truncate never finds a bit already clear, and clears exactly the bits of the blocks the file holds |
| `Truncate.TruncateStep` | linux/fs/truncate.cc:47-64 | After truncate the file is empty, all other files keep blocks and bytes, and used zones are again exactly the held ones |
| `Truncate.FreeIndStep` | linux/fs/truncate.cc:11-27 | free_ind frees each block below an indirect block once, then the block |
| `Truncate.FreeDindStep` | linux/fs/truncate.cc:29-45 | free_dind likewise for two levels |
| `FileSystem.Fs.FindFirstZero` | linux/fs/bitmap.cc:31-45 | The scan by words and bits finds the first zero bit |
| `FileSystem.Fs.AllocBlock` | linux/fs/bitmap.cc:75-105 | new_block over the map slots in place computes NewBlock when nothing runs during its sleep |
| `FileSystem.Fs.ReserveBlock` | linux/fs/bitmap.cc:75-96 | new_block up to its sleep in getblk, in place, computes Reserve |
| `FileSystem.Fs.SettleZone` | linux/fs/bitmap.cc:96-104 | The part after the sleep, with the store of the zone number in the inode or in the indirect block whose buffer was read before the sleep, computes Settle |
| `FileSystem.Fs.ReleaseBlock` | linux/fs/bitmap.cc:47-73 | free_block in place; the panic for a clear bit is the precondition |
| `FileSystem.Fs.BmapAt` | linux/fs/inode.cc:73-139 | _bmap in place computes Bmap and keeps the invariant |
| `FileSystem.Fs.FileWrite` | linux/fs/file_dev.cc:48-90 | The loop of file_write computes WriteFrom, with the position, O_APPEND and the result -1 for nothing written |
| `FileSystem.Fs.FileRead` | linux/fs/file_dev.cc:17-46 | The loop of file_read computes ReadFrom and advances the position by what it returns |
| `FileSystem.Fs.TruncateAt` | linux/fs/truncate.cc:47-64 | truncate in place computes TruncateFile and keeps the invariant; it does nothing to what is no regular file or directory |
| `Directories.Directory.FindEntry` | linux/fs/namei.cc:91-153 | find_entry returns the live entry with the name, cut to 14 bytes, or none when the directory does not map it; for a name of at most 14 bytes, none is returned exactly when no live entry has that name; ".." in a task's root means "." |
| `Directories.SameKey` | linux/fs/namei.cc:101-106 | Two names stand for the same entry if and only if they agree in their first 14 bytes; a name of at most 14 bytes stands for itself |
| `Directories.Directory.AddEntry` | linux/fs/namei.cc:165-220 | add_entry computes Added: it takes the first free entry or grows the directory; the map of names is unchanged until an inode number is stored |
| `Directories.Directory.Enter` | linux/fs/namei.cc:756-770 | Lookup, add_entry and the store of the inode number add exactly one name to the map, and every other name resolves as before |
| `Directories.Directory.Remove` | linux/fs/namei.cc:710-713 | Clearing the entry takes exactly one name out of the map |
| `Directories.EnterLate` | linux/fs/namei.cc:359-386 | Entering a name that was looked up before a sleep keeps the directory a map if and only if the name is still not there, and then adds exactly that name |
| `Directories.RemoveLate` | linux/fs/namei.cc:681-711 | Clearing the entry found before a sleep takes away exactly that name if and only if the entry still holds it, or is free and the name is gone |
| `Directories.EnteredTwice` | linux/fs/namei.cc:359-386 | Two tasks that both miss the name each enter it, one step after the other: the first step is right, the second gives the name two inode numbers |
| `Directories.Directory.EnterNow` | linux/fs/namei.cc:378-386 | add_entry and the store, after whatever ran since the lookup: the directory stays a map if and only if the name was not there when they began |
| `Directories.Directory.ClearEntry` | linux/fs/namei.cc:710-711 | The clearing after iget takes away exactly the names RemoveLate says |
| `DirectoryFiles.Stored` | linux/fs/namei.cc:202-213 | Storing part of an entry (its number, or its name) in a block of the directory file changes that entry of that directory as Directories has it, and not one byte more of any file |
| `DirectoryFiles.AddsOnDisk` | linux/fs/namei.cc:165-220 | add_entry on the bytes of the directory file (create_block, clearing, i_size, name) makes of it what AddEntry makes of the directory, touches no other file, and fails only when a block is needed and the device is full |
| `DirectoryFiles.NumbersOnDisk` | linux/fs/namei.cc:385-386 | The two-byte store of an inode number in an entry, that of open and link as well as the 0 of unlink and rmdir, is the one Directories makes |
| `DirectoryFiles.Grows` | linux/fs/namei.cc:193-201 | create_block at the end of the directory file adds a block of 64 free entries, and fails only when the device is full |
| `DirectoryFiles.Resized` | linux/fs/namei.cc:202-207 | Setting i_size to 16 bytes an entry gives the directory that many entries and changes no byte |
| `DirectoryFiles.Read` | linux/fs/namei.cc:126-151 | What find_entry reads from a block of the directory file is the entry Directories has there |
| `Directories.IsMap` | linux/fs/namei.cc:91-153 | A directory gives each name one inode number |
| `Directories.Match` | linux/fs/namei.cc:63-78 | match is equality with the entry's name up to its first zero, for live entries |
| `Directories.TextIs` | linux/fs/namei.cc:63-78 | The test of the byte after the name is what makes a prefix not match |
| `Directories.FreeEntryOk` | linux/fs/namei.cc:188-213 | Giving a free entry a name, or growing the directory by one, changes no name |
| `Directories.StoreOk` | linux/fs/namei.cc:769-770 | Storing the inode number makes exactly that name appear |
| `Directories.RemoveOk` | linux/fs/namei.cc:710-711 | Storing 0 makes exactly that name disappear |
| `LinkCounts.LinksCounted` | linux/fs/namei.cc:337-778 | Over every interleaving of the steps of open, mknod, mkdir, link, unlink, rmdir, iget and iput between their sleeps, each good when it comes, the directories stay a forest below roots, whatever is held exists, and i_nlinks of an inode no call is in the middle of is the number of entries naming it, as far as a byte goes |
| `LinkCounts.StepKeeps` | linux/fs/namei.cc:337-778 | A step keeps forest, counts and references right if and only if it is good: the inode whose number was found still exists when iget takes it, the directory entered is still there, the entry cleared still names the inode and its count is not found 0, the directory removed is still empty, and free_inode finds no new holder, no link and no overrun byte |
| `LinkCounts.NoneLost` | linux/fs/inode.cc:151-192 | Over every run no inode is lost: one without links, without holders and without a call in the middle has been freed |
| `LinkCounts.StepLosesNone` | linux/fs/inode.cc:151-192 | Every step leaves each inode with a link, a holder or a debt, since iput frees it with the last reference |
| `LinkCounts.ClearKeeps` | linux/fs/namei.cc:686-711 | unlink of an inode it holds, whatever ran since the lookup: clearing the entry is right if and only if it still names the inode and the count is not 0 (or the entry is free and the count 0) |
| `LinkCounts.ClearDirKeeps` | linux/fs/namei.cc:612-651 | rmdir of a directory it holds, after empty_dir: clearing the entry is right if and only if it still names that directory, which is still one and still empty |
| `LinkCounts.LowerDirKeeps` | linux/fs/namei.cc:652-655 | The stores of rmdir after brelse are right if and only if the count of the directory is still 2 |
| `LinkCounts.EnterLinkKeeps` | linux/fs/namei.cc:763-772 | The store of link, for an inode it holds, is right if and only if the directory is still there and the inode is no directory; its late increment always is |
| `LinkCounts.FreeKeeps` | linux/fs/inode.cc:181-185 | iput may free an inode after truncate if and only if nobody has taken it since, its count is still 0 and fewer than 256 entries name it |
| `LinkCounts.HoldKeeps` | linux/fs/inode.cc:245-263 | iget is right if and only if the inode whose number it was given still exists when it takes the count; giving a count back always is |
| `LinkCounts.StaleNumber` | linux/fs/inode.cc:245-293 | Two tasks unlink the only entry of a file, the second asleep in iget before it has a count: the first frees the inode in good order, and the second takes a freed one |
| `LinkCounts.LeafRooted` | linux/fs/namei.cc:530-532 | A directory entered below one that is below a root is below a root, as are all others |
| `LinkCounts.CutRooted` | linux/fs/namei.cc:648-651 | Removing a directory with none below it leaves every other one below its root |
| `LinkCounts.UnlinkTwice` | linux/fs/namei.cc:681-713 | Two tasks unlink the same entry of a file with two links, both asleep in iget: no link is left and iput goes on to free the inode, though the other entry names it |
| `LinkCounts.LinkRunsOver` | linux/fs/namei.cc:763-776 | With 256 entries for one file the count is 0 and iput goes on to free the inode under them |
| `LinkCounts.MkdirRunsOver` | linux/fs/namei.cc:530-533 | With 254 directories in the root its count is 0, and giving it back goes on to free it |
| `LinkCounts.LinkKeeps` | linux/fs/namei.cc:763-776 | sys_link without a sleep in between keeps counts exact if and only if the byte was below 255: its increment is not checked |
| `LinkCounts.MkdirKeeps` | linux/fs/namei.cc:463-538 | sys_mkdir likewise, if and only if the parent's byte was below 255 |
| `LinkCounts.UnlinkKeeps` | linux/fs/namei.cc:663-719 | sys_unlink without a sleep in between keeps the counts exact, and the "deleting nonexistent file" repair is not needed |
| `LinkCounts.EmptyHasTwoLinks` | linux/fs/namei.cc:648-660 | A directory rmdir finds empty, that no other call is in the middle of, has link count 2 and the directory it was found in as its parent |
| `LinkCounts.RmdirKeeps` | linux/fs/namei.cc:587-661 | sys_rmdir without a sleep in between keeps the counts exact and the directories a tree |
| `LinkCounts.FoundIsProper` | linux/fs/namei.cc:607-647 | What passes the tests of unlink or rmdir was not found as "." or ".." |
| `BufferCache.RemoveOk` | linux/fs/buffer.cc:134-150 | remove_from_queues takes exactly that buffer off its hash chain and off the circular free list |
| `BufferCache.InsertOk` | linux/fs/buffer.cc:152-167 | insert_into_queues puts a buffer on the free list and on exactly its own hash chain, if no other buffer stands for its block |
| `BufferCache.RelabelOk` | linux/fs/buffer.cc:250-252 | A buffer off both lists may take a new identity if no other buffer has it |
| `BufferCache.Cache.constructor` | linux/fs/buffer.cc:351-384 | buffer_init: all buffers free, in one circle |
| `BufferCache.Cache.FindBuffer` | linux/fs/buffer.cc:169-177 | The walk of one hash chain finds what a search of all buffers would |
| `BufferCache.XorBits` | linux/fs/buffer.cc:131 | The hash is taken of the exclusive or: each bit of it is set exactly when the bits of device and block differ |
| `BufferCache.Cache.GetHashTable` | linux/fs/buffer.cc:186-199 | get_hash_table finds a buffer exactly when the block is cached and returns it counted and unlocked; its check after the wait never fails, because a counted buffer keeps its identity while its owner sleeps; only pauses change dirty and up-to-date bits |
| `BufferCache.Cache.Select` | linux/fs/buffer.cc:215-228 | The walk of the free list finds an uncounted buffer than which none is better (clean rather than dirty, else unlocked rather than locked), and of those the one longest on the list; none when all are counted |
| `BufferCache.Cache.Claim` | linux/fs/buffer.cc:243-253 | Reuse keeps the cache consistent and never takes a counted, dirty or locked buffer; it clears the bits of that buffer and of no other, and puts it at the end of the free list |
| `BufferCache.Cache.GetBlk` | linux/fs/buffer.cc:209-254 | Across all its sleeps, getblk returns the one buffer of the block, unlocked and counted once more for the caller, and no buffer the caller holds changes identity; between pauses it changes dirty and up-to-date bits only of a buffer it claims, and a cached block is not claimed; it never gives up when the block is cached or a buffer can be taken at once |
| `BufferCache.Cache.MakeClean` | linux/fs/buffer.cc:231-239 | The waits for the chosen buffer end with it free, clean and unlocked, or somebody else took it; a usable buffer is not waited for |
| `BufferCache.Cache.Brelse` | linux/fs/buffer.cc:256-264 | brelse gives up one reference and never finds the count 0; it changes no dirty or up-to-date bit |
| `Links.RingRemove` | linux/fs/buffer.cc:142-149 | Unlinking from the circular list joins the neighbours and moves the head when needed |
| `Links.RingAppend` | linux/fs/buffer.cc:155-158 | Linking before the head appends to the circle |
| `Links.ChainRemove` | linux/fs/buffer.cc:136-141 | Unlinking from a hash chain, at its head or inside |
| `Links.ChainInsert` | linux/fs/buffer.cc:160-166 | Putting a buffer at the head of its chain |
| `KernelMalloc.Allocator.Malloc` | linux/lib/malloc.cc:117-173 | The object comes from the smallest size that fits, was not live, and is the only new live one; it is as large as asked for if and only if the length is below 2^31, as the comparison is signed; malloc succeeds if and only if the length is at most 4096 and a bucket of the size has a free object or there are pages for a new one, and it takes pages only for a new one |
| `KernelMalloc.Allocator.FreeS` | linux/lib/malloc.cc:182-230 | free_s finds the bucket unless the hint is too large; from what interrupts leave before cli(), exactly the object dies, and its page goes back with the last object of it |
| `KernelMalloc.FitsAsked` | linux/lib/malloc.cc:128-135 | The size found for a length holds that many bytes if and only if the length is below 2^31 |
| `KernelMalloc.SizesDouble` | linux/lib/malloc.cc:77-87 | The sizes are 16 and its doubles up to 4096 |
| `KernelMalloc.HugeIsSmall` | linux/lib/malloc.cc:128-135 | For a length of 2^31 the sixteen-byte size is found |
| `KernelMalloc.Allocator.Release` | linux/lib/malloc.cc:204-231 | Even with an outdated prev, exactly that object stops being live, the page goes back exactly when it was the last of its page, no descriptor is lost, and the corrupted-chains panic is never reached |
| `KernelMalloc.Allocator.Search` | linux/lib/malloc.cc:188-202 | The search over sizes not below the hint finds the page's bucket and what precedes it |
| `KernelMalloc.Allocator.FindPrev` | linux/lib/malloc.cc:213-217 | The repair loop finds what precedes the bucket on its chain |
| `KernelMalloc.Allocator.InitBucketDesc` | linux/lib/malloc.cc:97-115 | 256 descriptors become free; no live object and no bucket changes |
| `KernelMalloc.Allocator.AddBucket` | linux/lib/malloc.cc:146-167 | A new bucket has all its objects free and takes a page no other bucket has; it is got if and only if there is a page for it and, when no descriptor is free, a second one |
| `KernelMalloc.Allocator.ChainPage` | linux/lib/malloc.cc:159-164 | The loop chains up every object of the page, in order, ending in 0 |
| `KernelMalloc.Allocator.FindBucket` | linux/lib/malloc.cc:139-141 | The walk finds a bucket of the size with a free object, or shows that there is none |
| `KernelMalloc.LiveDisjoint` | linux/lib/malloc.cc:117-173 | Live objects never overlap |
| `KernelMalloc.NoneLive` | linux/lib/malloc.cc:207-208 | The count of a bucket is 0 exactly when none of its objects is live |
| `KernelMalloc.StoreOk` | linux/lib/malloc.cc:168-170 | Whatever the owner of an object writes into it, the chains of free objects stay intact |
| `KernelMalloc.TakeOk` | linux/lib/malloc.cc:168-170 | Handing out an object keeps count plus chain length constant |
| `KernelMalloc.PutOk` | linux/lib/malloc.cc:205-207 | Taking one back likewise |
| `KernelMalloc.NewBucketOk` | linux/lib/malloc.cc:146-167 | A free descriptor becomes a bucket; every descriptor stays on exactly one list |
| `KernelMalloc.RetireOk` | linux/lib/malloc.cc:218-227 | An empty bucket leaves its chain and its descriptor becomes free |
| `KernelMalloc.ObjectPage` | linux/lib/malloc.cc:188-189 | Clearing the low twelve bits of an object's address gives its page |
| `KernelMalloc.SlotsOk` | linux/lib/malloc.cc:159-164 | A page is cut into 4096/size objects that lie apart |
| `Elevator.ServedWithinOneDescent` | linux/kernel/blk_drv/ll_rw_blk.cc:65-87 | Whatever arrives later, the requests served up to and including a waiting one make at most one descent: it is served in this sweep or the next |
| `Elevator.BoundedWaiting` | linux/kernel/blk_drv/ll_rw_blk.cc:65-87 | If all requests come from a finite set of blocks, at most twice their number are served before a waiting one |
| `Elevator.AddKeepsOrder` | linux/kernel/blk_drv/ll_rw_blk.cc:65-87 | A queue with at most one descent under IN_ORDER has at most one after add_request, for a key not yet queued |
| `Elevator.OneSweep` | linux/kernel/blk_drv/blk.h:40-44 | A queue without descents has reads before writes and, for one command and device, rising sectors |
| `Elevator.TwoSweeps` | linux/kernel/blk_drv/blk.h:40-44 | A queue with at most one descent is two such sweeps in a row |
| `Elevator.StopKeeps` | linux/kernel/blk_drv/ll_rw_blk.cc:79-85 | Where add_request stops between two requests it adds no descent |
| `Elevator.ArriveKeeps` | linux/kernel/blk_drv/ll_rw_blk.cc:65-87 | An arrival never changes the number of descents up to a waiting request |
| `Elevator.LastBelow` | linux/kernel/blk_drv/ll_rw_blk.cc:79-85 | A request that goes below the last one to the end found a queue without descents |
| `BlockRequests.Devices.AddRequest` | linux/kernel/blk_drv/ll_rw_blk.cc:65-87 | The list walk and splice place the request as Added says; other queues, and other locked buffers, are untouched |
| `BlockRequests.Devices.MakeRequest` | linux/kernel/blk_drv/ll_rw_blk.cc:89-144 | An unlocked buffer that needs a transfer is locked, marked clean and queued, in its place, when a slot is free, and no other buffer changes; a queued request stands for the locked buffer's block; otherwise nothing was needed, or a read-ahead found no slot and unlocked the buffer |
| `BlockRequests.Devices.FindSlot` | linux/kernel/blk_drv/ll_rw_blk.cc:111-123 | The highest free slot; writes use only the lower two thirds |
| `BlockRequests.Devices.LockBuffer` | linux/kernel/blk_drv/ll_rw_blk.cc:43-50 | lock_buffer returns with the buffer locked by the caller and not queued |
| `BlockRequests.Devices.EndRequest` | linux/kernel/blk_drv/blk.h:109-125 | Exactly the first request leaves its queue; its slot is free and its buffer unlocked and up to date or not as the driver says; no other slot and no other bit of a buffer changes |
| `BlockRequests.EnqueueOk` | linux/kernel/blk_drv/ll_rw_blk.cc:65-87 | Queueing keeps every slot on the queue of its device, one request per buffer, and every queue within one descent |
| `BlockRequests.ServeOk` | linux/kernel/blk_drv/blk.h:109-125 | Serving keeps the same |
| `BlockRequests.KeyIsNew` | linux/kernel/blk_drv/ll_rw_blk.cc:43-50 | A buffer locked and not queued has a key no queue contains, which is what AddKeepsOrder asks for |
| `Scheduler.Fairness` | linux/kernel/sched.cc:106-144 | Without forks, a runnable task waits at most as many ticks in user mode as the others have time left, plus one, plus what one recharge can give them if its own time is used up, whatever the others do, ticks in kernel mode and niceness included: each may lower its priority at will and raise it up to a given cap |
| `Scheduler.StepLowers` | linux/kernel/sched.cc:106-144 | Nothing that happens makes a runnable task wait longer and every tick in user mode brings it nearer |
| `Scheduler.StepWithin` | linux/kernel/sched.cc:106-144 | For every bound: priorities at most the bound and counters at most twice it survive every event, if and only if the event is not a nice that takes a priority above the bound |
| `Scheduler.PatienceBound` | linux/kernel/sched.cc:137-142 | While priorities are at most a bound, no wait is longer than 248 times the bound, plus what is left of task 0, plus one |
| `Scheduler.NicedBelow` | linux/kernel/sched.cc:382-387 | A task with 15 ticks left that lowers its priority from 15 to 1 has a counter above twice its priority |
| `Scheduler.BestUnique` | linux/kernel/sched.cc:126-137 | The choice of schedule is determined |
| `Scheduler.RechargeOk` | linux/kernel/sched.cc:137-142 | After one recharge some runnable task has time, so the outer loop ends |
| `Scheduler.WokenIs` | linux/kernel/sched.cc:113-122 | What the first loop does to a task: an overdue alarm is cleared and raises SIGALRM and no other signal; an interruptible sleeper runs exactly if a signal is up that it has not blocked or that is SIGKILL or SIGSTOP; nothing else changes |
| `Scheduler.PendingIs` | linux/kernel/sched.cc:24-25 | The mask finds a signal exactly when one is up that is not blocked or is SIGKILL or SIGSTOP, bit by bit |
| `Scheduler.Sched.Schedule` | linux/kernel/sched.cc:106-144 | schedule ends after at most two passes and picks the last runnable task of largest counter, task 0 only when none is runnable |
| `Scheduler.Sched.Search` | linux/kernel/sched.cc:127-136 | The inner scan finds the best task |
| `Scheduler.Sched.WakeUp` | linux/kernel/sched.cc:113-122 | Overdue alarms are delivered and signalled interruptible sleepers woken, task 0 apart |
| `Scheduler.Sched.TimerTick` | linux/kernel/sched.cc:336-339 | A tick takes one from the running task, which runs on if it has time left or the tick came in kernel mode; else its counter is 0 and the best task runs after a wake-up and, if need be, a recharge |
| `Scheduler.Sched.Nice` | linux/kernel/sched.cc:382-387 | sys_nice takes the increment from the priority if that leaves it positive, and else changes nothing |
| `Timers.FiresLate` | linux/kernel/sched.cc:274-333 | Over every interleaving of add_timer and ticks, a timer fires after exactly its due time plus the sum of the deltas inserted in front of it, never earlier |
| `Timers.AddedFires` | linux/kernel/sched.cc:274-333 | A timer added with delay d fires exactly d ticks later plus that lateness; it is on time if and only if every timer added meanwhile asks for more ticks than it has left by then |
| `Timers.OnTime` | linux/kernel/sched.cc:274-333 | The lateness is 0 if and only if no timer is added that is due no later |
| `Timers.PlaceFirst` | linux/kernel/sched.cc:289-302 | A new timer is put in front of another if and only if its delay is at most what the other has left |
| `Timers.LateExample` | linux/kernel/sched.cc:289-302 | A timer for 5 ticks fires after 8 when one for 3 ticks is added behind its back: the entry behind is not shortened |
| `Timers.InsertDue` | linux/kernel/sched.cc:289-302 | A new timer is due when asked, those in front keep their time, those behind wait longer by the inserted delta, which is at most the following one |
| `Timers.TickDue` | linux/kernel/sched.cc:323-333 | A tick brings every timer one tick nearer and fires the head exactly when due |
| `Timers.MovedFn` | linux/kernel/sched.cc:284-333 | A timer keeps its function wherever insertions and ticks move it, and it is the head with one tick left that fires |
| `Timers.TimerTable.AddTimer` | linux/kernel/sched.cc:274-305 | The slot search and the swapping of contents along the list compute Step; slots in use are exactly the listed ones |
| `Timers.TimerTable.Bubble` | linux/kernel/sched.cc:293-302 | The swapping loop puts the new entry where Inserted says |
| `Timers.TimerTable.DoTimer` | linux/kernel/sched.cc:323-333 | One tick over the table computes Ticked, and fires at most one timer |
| `WaitQueues.SleeperReached` | linux/kernel/sched.cc:153-167 | Every task asleep is reached from a queue head or from a runnable task inside sleep_on by following the saved tmp variables |
| `WaitQueues.OneWakeUpIsEnough` | linux/kernel/sched.cc:153-196 | After one wake_up, whatever else happens, every task then asleep on the queue has resumed, or is runnable, or has before it a runnable one that will wake it in turn |
| `WaitQueues.EverybodyResumes` | linux/kernel/sched.cc:153-196 | If every runnable task gets to run in each round, all tasks asleep on the queue at a wake_up have resumed after as many rounds as there were tasks |
| `WaitQueues.AllServed` | linux/kernel/sched.cc:153-167 | In each such round at least the first of those left resumes |
| `WaitQueues.AllResume` | linux/kernel/sched.cc:153-167 | The tasks of a chain resume one after the other in order; the number still asleep only goes down |
| `WaitQueues.HangingStep` | linux/kernel/sched.cc:153-196 | No step of any task breaks the chain that hangs from a woken task |
| `WaitQueues.ChainBehind` | linux/kernel/sched.cc:153-160 | The sleepers behind a task form a finite chain |
| `WaitQueues.StepKeeps` | linux/kernel/sched.cc:153-196 | Each sleeping task has exactly one that will wake it |
| `WaitQueues.Queues.SleepOn` | linux/kernel/sched.cc:153-163 | sleep_on up to schedule, on the queue head and the task's tmp |
| `WaitQueues.Queues.AfterSchedule` | linux/kernel/sched.cc:164-166 | sleep_on after schedule wakes the task that slept before |
| `WaitQueues.Queues.WakeUp` | linux/kernel/sched.cc:190-196 | wake_up makes the last sleeper runnable and empties the queue |
| `ExecArgs.ExecArguments` | linux/fs/exec.cc:262-335 | The round trip: walking the argv and envp tables the new stack pointer leads to gives back the arguments (with the #! splice) and the environment, in order, and argc is their number; it fails if and only if fewer pages are free than the strings need |
| `ExecArgs.Area.CopyStrings` | linux/fs/exec.cc:104-150 | The strings end up below p, first one lowest, what was there stays, one free page goes for each page entered, and it fails only when none is left |
| `ExecArgs.Area.CopyOne` | linux/fs/exec.cc:124-145 | Byte by byte from the end; offset is p % PAGE_SIZE at every store |
| `ExecArgs.CopyArguments` | linux/fs/exec.cc:262-321 | The calls of copy_strings lay out name, optional argument, script and remaining arguments in that order, with exactly as many pages as they span; they fail if and only if there are fewer |
| `ExecArgs.User.MapPages` | linux/fs/exec.cc:168-173 | Every page got is mapped at its place at the end of the data segment |
| `ExecArgs.User.CreateTables` | linux/fs/exec.cc:46-70 | The tables lie below the strings, aligned and without a gap, do not overlap them, and read back as the strings |
| `ExecArgs.User.FillTable` | linux/fs/exec.cc:58-68 | Entry i of a table points to string i, and a null ends it |
| `ExecArgs.TableReadBack` | linux/fs/exec.cc:58-68 | Walking such a table gives the strings |
| `ExecArgs.StoreHolds` | linux/fs/exec.cc:133-144 | Storing a byte below what is held, getting a page if need be, disturbs nothing |
| `Pipes.PipeSafe` | linux/fs/pipe.cc:13-69 | Over every run of readers, writers and closes: bytes read are a prefix of bytes written, the pipe holds the rest and at most 4095 bytes, no two tasks are ever asleep on it, and nobody sleeps once an end is closed |
| `Pipes.WriteInOrder` | linux/fs/pipe.cc:41-69 | Over every run, what a write has stored so far and what it has left are, in order, the data it was given; a write that has ended has stored all of it, unless an end was closed |
| `Pipes.ReadInOrder` | linux/fs/pipe.cc:13-39 | Over every run, a read takes no more than it asked for, and has all of it when it ends, unless an end was closed |
| `Pipes.StepKeeps` | linux/fs/pipe.cc:13-69 | Whoever sleeps on a pipe has reason to, a peer that is still there, and is the one task on i_wait |
| `Pipes.WakesAll` | linux/fs/pipe.cc:17-22 | Waking the one task on i_wait leaves no task asleep on the pipe, since each calls wake_up just before it sleeps |
| `Pipes.Users.Resume` | linux/fs/pipe.cc:13-69 | A task that goes on with read_pipe or write_pipe on the pipe itself takes the step of the run |
| `Pipes.Users.CloseOne` | linux/fs/inode.cc:158-167 | iput of a pipe's inode takes the step of a close |
| `Pipes.Pipe.ReadUntilSleep` | linux/fs/pipe.cc:13-39 | read_pipe between sleeps takes what is there up to count, in order, across the wrap, and sleeps only on an empty pipe with both ends open |
| `Pipes.Pipe.WriteUntilSleep` | linux/fs/pipe.cc:41-69 | write_pipe between sleeps stores what there is room for, and sleeps only on a full pipe with both ends open |
| `Rings.PutAllOk` | linux/fs/pipe.cc:55-64 | Storing a chunk where the buffer does not wrap appends it |
| `Rings.GetAllOk` | linux/fs/pipe.cc:25-34 | Taking a chunk takes the oldest bytes |
| `Rings.PutOk` | linux/include/linux/tty.h:31-34 | PUTCH appends while one place stays free |
| `Rings.GetOk` | linux/include/linux/tty.h:31-32 | GETCH takes the oldest |
| `Rings.DropOk` | linux/include/linux/tty.h:24-28 | Decrementing head takes back the newest, which LAST names |
| `FileTables.CountsFit` | linux/include/linux/fs.h:116-122 | f_count never exceeds NR_TASKS * NR_OPEN and so fits its 16 bits |
| `FileTables.ClearedOk` | linux/fs/open.cc:193-209 | Giving up an entry finds a positive count, which reaches 0 exactly when no entry names the file any more |
| `FileTables.FilledOk` | linux/fs/fcntl.cc:31-33 | A new entry for a file no task has claimed keeps every count equal to the number of entries |
| `FileTables.SharedOk` | linux/fs/fcntl.cc:31-33 | A file named by a task that is not in the middle of a call can get another entry: no claimed count is disturbed |
| `FileTables.DroppedOk` | linux/fs/pipe.cc:95-100 | Setting the count of a claimed file to 0 and its entry to null is right whatever ran since it was claimed, as no other entry names it |
| `FileTables.RunKeeps` | linux/fs/open.cc:138-209 | Over every interleaving of open, close, dup, pipe and fork between their sleeps every f_count is the number of entries naming the file, and a sleeping task's entries and claims stay as they were whatever the others do |
| `FileTables.StepKeeps` | linux/fs/open.cc:138-209 | Every such step keeps the counts exact and leaves the rows and claims of other tasks alone |
| `FileTables.Files.OpenBegin` | linux/fs/open.cc:145-156 | sys_open before open_namei claims a free entry and a file nobody names |
| `FileTables.Files.OpenEnd` | linux/fs/open.cc:157-185 | Setting the count to 1 or 0 after open_namei is right, because only the claimed entry names the file, even if other tasks ran meanwhile |
| `FileTables.Files.Close` | linux/fs/open.cc:193-209 | sys_close never panics, and releases the inode exactly with the last entry |
| `FileTables.Files.DupFd` | linux/fs/fcntl.cc:18-34 | dupfd takes the first free entry from arg on; errors change nothing |
| `FileTables.Files.Dup2` | linux/fs/fcntl.cc:36-40 | dup2 returns newfd if and only if both numbers are in range and differ and oldfd is open; in every other case it fails with newfd closed; no other entry of the task changes, even if others run while the old inode is released |
| `FileTables.Files.PipeBegin` | linux/fs/pipe.cc:78-99 | sys_pipe before get_pipe_inode claims two unused files and the two lowest free entries, exactly when there are such; otherwise everything is as before |
| `FileTables.Files.PipeEnd` | linux/fs/pipe.cc:99-110 | After it, success keeps both; failure sets both entries and both counts back, which is right whatever ran meanwhile |
| `FileTables.Files.Fork` | linux/kernel/fork.cc:124-128 | The child's entries equal the parent's and every count stays exact |
| `FileTables.Files.Exit` | linux/kernel/exit.cc:115-117 | An exiting task names no file any more, and every count stays exact, though it may sleep with every inode it releases |
| `FileTables.NamesTwice` | linux/fs/open.cc:193-209 | A file named by two entries has at least count 2 |
| `TtyLines.Tty.CopyToCooked` | linux/kernel/chr_drv/tty_io.cc:145-228 | copy_to_cooked over the rings is the fold of Typed over the raw characters, until none is left or the secondary ring is full; data stays the number of newlines and end-of-file characters in it |
| `TtyLines.Tty.TypeChar` | linux/kernel/chr_drv/tty_io.cc:149-226 | One character does to the rings and counters what Typed says |
| `TtyLines.CookedTypes` | linux/kernel/chr_drv/tty_io.cc:145-228 | copy_to_cooked types the raw characters in order until none is left or the ring is full |
| `TtyLines.PlainText` | linux/kernel/chr_drv/tty_io.cc:149-226 | Characters that are no keys come out in order as their translations |
| `TtyLines.Translations` | linux/kernel/chr_drv/tty_io.cc:149-161 | Carriage return, newline and capital letters are translated as the flags say, everything else is left as it is |
| `TtyLines.EraseTakesBack` | linux/kernel/chr_drv/tty_io.cc:177-190 | The erase key takes back the character typed before it, unless that ended a line |
| `TtyLines.KillTakesBack` | linux/kernel/chr_drv/tty_io.cc:162-176 | The kill key takes back whatever was typed since the last end of a line |
| `TtyLines.Keys` | linux/kernel/chr_drv/tty_io.cc:191-208 | The stop and start keys and the two signal keys take effect and leave no character |
| `TtyLines.Tty.ReadPass` | linux/kernel/chr_drv/tty_io.cc:261-272 | One pass of tty_read takes as many characters in order as are there and wanted, up to the first end-of-file character in canonical mode, and data never goes below zero |
| `TtyLines.CookedBounds` | linux/kernel/chr_drv/tty_io.cc:145-228 | The ring never overflows and lines already ended are never edited |
| `TtyLines.KillKeepsCount` | linux/kernel/chr_drv/tty_io.cc:162-176 | Killing a line never removes a newline or end-of-file character |
| `TtyLines.TypedCount` | linux/kernel/chr_drv/tty_io.cc:149-226 | A character changes the count only by coming out as a newline or end of file |
| `TtyLines.Killed` | linux/kernel/chr_drv/tty_io.cc:162-176 | What is killed is exactly what follows the last newline or end of file |
| `Numbers.ReadBack` | linux/kernel/vsprintf.cc:40-92 | What number prints reads back as the number, signed or unsigned, for every base from 2 to 36 and all flags, widths and precisions |
| `Numbers.PrintedWidth` | linux/kernel/vsprintf.cc:40-92 | The length printed is the larger of the field width and sign, prefix and digits with precision together |
| `Numbers.PrintedPadding` | linux/kernel/vsprintf.cc:69-91 | Blanks fill the field behind with LEFT, zeros between sign and digits with ZEROPAD, blanks in front otherwise |
| `Numbers.PrintedFront` | linux/kernel/vsprintf.cc:52-80 | After blanks in front come the sign, as SIGN, PLUS and SPACE ask for, and with SPECIAL the prefix of base 8 or 16 |
| `Numbers.PrintedCase` | linux/kernel/vsprintf.cc:47 | SMALL decides between small and capital letters in digits and prefix |
| `Numbers.Number` | linux/kernel/vsprintf.cc:40-92 | The code with its flags and counters prints what Printed says, and returns null for an impossible base |
| `Numbers.MakeDigits` | linux/kernel/vsprintf.cc:62-66 | The division loop yields the numeral backwards and never fills more than tmp holds |
| `Numbers.NumeralValue` | linux/kernel/vsprintf.cc:62-66 | The numeral stands for the number |

## Left out

Memory:

- Stores are words, not bytes; the translation buffer (`invalidate`) and read faults are not modelled.
- MemoryManager.Mm.DoNoPage: the zeroing of the tail of a file's last page and the reading of its blocks are not modelled, the page is a parameter; `bread_page` sleeps between `get_free_page` and `put_page`, which in runs is the steps `Hold`, `KernelStore` and `Place` with others between them.
- `verify_area`'s loop over pages, `change_ldt` (but for its `put_page` and the mapping of argument pages), `do_wp_page`'s entry; segment limits.
- Task 0's own pages in low memory show as low memory, not as private contents; forking from address 0 copies one directory entry of 160 pages.
- MachineRuns.Run: the task structures, pipe pages and argument pages are frames the kernel holds; what it stores in them is arbitrary.

File system:

- I/O failure, times, dirty flags and the write-back of buffers and inodes; `free_block`'s early return for a buffer still in use.
- The inode bitmap (`new_inode`, `free_inode`) and the inode cache (`iget`, `iput`, `get_empty_inode`): reference counts of the same kind as for open files.
- Bits of the zone map that stand for no zone are preset; offsets that reach the largest file are a precondition, as `_bmap` panics there.
- FileSystem.Fs.ReleaseBlock: a buffer of the block that is still in use, for which the source returns early and keeps the bit, is left out.
- FileSystem.Fs.AllocBlock: nothing runs during the sleep in `getblk`; `ReserveBlock` and `SettleZone` are the two halves.
- FileSystem.Fs.BmapAt: nothing runs during the sleeps in `new_block` and `bread`; `ReservedBlocks.SettleKeeps` is about what may run in `new_block`.
- ReservedBlocks.TruncatedBusy: truncate with the buffer of one indirect block in use; that the early return of `free_block` also leaves that buffer counted for ever is not part of the model.
- FileSystem.Fs.FileWrite: nothing else runs during the sleeps in `create_block` and `bread` of its loop.
- FileSystem.Fs.FileRead: nothing else runs during the sleeps in `bread` of its loop.
- FileSystem.Fs.TruncateAt: nothing runs during the sleeps in `free_ind` and `free_dind`.
- Directories.Directory.FindEntry: crossing a mount point at ".." is not modelled; directories have no holes; the sleep in `bread` between two blocks is left out. The class is over records; `DirectoryFiles` ties the records to the bytes of the file.
- Directories.Directory.AddEntry: `create_block` is a parameter that says whether there was a block (`DirectoryFiles.Grows`); the sleep between two blocks is left out. On the disk that is `DirectoryFiles.AddsOnDisk`, where the blocks passed on the way are there already.
- Directories.Directory.Enter: nothing runs between the lookup and the store; `EnterNow` is the part after a sleep.
- Directories.Directory.Remove: nothing runs between the lookup and the clearing; `ClearEntry` is the part after a sleep.
- LinkCounts.LinksCounted: entries are places in directories, names being the business of `Directories`; permissions, sticky bits, devices and the test of `i_count` in `sys_rmdir` are left out; the steps are functions on values. What a freed inode that is taken again holds, and what `truncate` does to the file of an inode being freed, is not part of the counts. A new inode and the block with its "." and ".." are one step, as no entry names the inode yet.

Buffer cache and requests:

- BufferCache.Cache.GetBlk: starts again at most `fuel` times and then gives up; the source goes on for ever. The same holds for `LockBuffer` and `MakeRequest`.
- The store of `insert_into_queues` through a null `b_next` when the hash chain was empty is left out; `b_count` is a natural number, not a byte; there are at least two buffers; the contents of buffers, `breada` and `bread_page` are not modelled.
- What the other tasks do while one sleeps is the rely condition of `Cache.Sleep`, `WaitOnBuffer`, `SyncDev` and `Devices.Sleep`, whose bodies stand for any behaviour with that contract; the writes of `sync_dev`, which clear dirty bits, are part of the pause `Cache.SyncDev` stands for.
- Drivers, `request_fn` and errors of transfers.

Kernel allocator:

- KernelMalloc.Allocator.FreeS: an interrupt is considered between the search and `cli()`, not inside the search; freeing what is not live is excluded. A pointer is one cell of memory at its address.

Scheduling:

- Scheduler.Fairness: no fork while the task waits, and only ticks in user mode are counted, as one in kernel mode lets the running task run on; a task that forks again and again gives every child time of its own, so no bound holds then.
- `interruptible_sleep_on` is not modelled: its repeat path may leave a sleeper behind. `WaitQueues` takes `sleep_on` from its start to `schedule()` as one step: no wake-up comes in between.
- Timer functions run after the list is in order; what they do, such as adding timers, comes as a later step.
- Floppy timers, times used, the speaker, `sys_alarm`.

Programs, pipes, files, terminals:

- ExecArgs.ExecArguments: at least one argument, and strings that fit below 128 kB, since the size test of `copy_strings` can never be true; permissions, the header of the executable and the parsing of the #! line are left out, as are segment registers.
- Pipes.PipeSafe: user copies do not sleep; the SIGPIPE of a writer without readers is left out.
- FileTables.Files.PipeBegin: its net effect up to `get_pipe_inode`; counts it sets and takes back before that, without a sleep, are not visible.
- FileTables.Files.Exit: what other tasks do while it sleeps is the contract of `Files.Sleep`, which `FileTables.RunKeeps` proves of every run of the others' steps; the same holds for `Dup2`.
- FileTables.Files.Fork: the entries and counts are set one by one; the source copies the whole task structure first, with no sleep in between.
- Inode counts of files, pwd, root and executables; close-on-exec.
- TtyLines.Tty.CopyToCooked: echo, the stopping of output, and the signals sent (only counted) are left out; `tolower` is for ASCII letters.
- TtyLines.Tty.ReadPass: the sleeps, time-outs and minimum counts of `tty_read` around the pass are left out.
- Numbers.Number: field widths are unbounded integers; the format string of `vsprintf` is not modelled.

Not modelled at all: boot code, assembly stubs, descriptors, `switch_to`, device drivers, `mktime`, `stat`, uid and gid calls,
`ioctl`, the user library, and the toy kernel `linux-0.00-050613`.
