# INDOMINUS OS: a verified model of memory, disk, processes and loading

This project models five parts of the INDOMINUS OS kernel in Dafny 4.11 and proves what they promise.

* **Copy-on-write memory** (`Pmm`, `PageTables`, `ForkCopy`, `Teardown`, `PageUpdate`, `PageGraft`, `Spaces`,
  `ForkStep`, `CowSteps`, `CowRefinement`, `ForkCost`, `Vmm`). Physical memory is a sequence of frames; page-table
  trees are read out of it, and the kernel's routines change frames in place. The main theorem,
  `CowRefinement.RunRefines`, says that sharing, refcounts and lazy copying look to every process like private memory,
  over every run.
* **FAT16/FAT32** (`FatDisk`, `FatChains`, `FatData`, `FatPlace`, `FatDirs`, `FatVolume`, `FatGrowth`, `FatClose`,
  `FatFile`, `FatNames`, `FatLaws`, and `FatCases` with inputs on which conditions fail). The block device is a
  sequence of 512-byte sectors on which any read or write may fail; a ghost trace records the disk after every sector
  write. The file allocation table, chains, file data, directories and the write-back on close are proved against
  that, the last one as a crash-safety theorem over the whole trace, for the file closed and for every other file, and
  as a round trip with opening. `FatNames` prints names and directory entries and proves that the driver reads them
  back; `FatLaws` says where the table and the files are among the bytes of the device.
* **Scheduler** (`SchedState`, `SchedRun`, `SchedLaws`, `SchedCalls`, `SchedFamily`, `SchedLeftover`, `SchedOwner`,
  `SchedAccounts`, `SchedKernel`). The table of 32 slots and every entry point that changes it, as functions; for
  every step by what a process is woken and by what it dies (`SchedLaws.WokenIff`, `SchedLaws.DiesIff`); run theorems
  about the Running process, bounded waiting, reaping and resource ownership; and the scheduler and context-switch
  code as a class over fixed arrays, method by method equal to those functions.
* **ELF loader** (`Elf`, `ElfLayout`) and **initial ram disk** (`Initrd`, `Utf8`): the flat image a loaded program
  shows, against a printer of its headers, and the round trip between the build tool's printer and the kernel's
  parser.

`Wrappers` and `Octets` hold the option type and bytes. `dafny verify dfyconfig.toml` checks everything.

## What the model takes as given

* Reads of the clock, pipe counters, the state of a user stack, the contents of a freshly allocated frame and the
  success of a device access or of mapping a loaded page are parameters or free choices. `FatFile`'s volume carries a
  constant `reliable` (no access to a sector of the disk fails), the loader's address space a constant `ample` (frames
  never run out). Safety clauses do not depend on these constants; the clauses that promise success do.
* FAT: sectors of 512 bytes, at least one table copy, and no 32-bit overflow in `cluster_to_sector` for the clusters of
  the table or in `last_cluster + 1`. Tables of any size are covered: the driver scans up to a constant that is not the
  volume's size, so it can leave the table, and the results say when it does. A failed sector write leaves the sector as
  it was.
* Memory: a fork is made of a space whose frames all have counts below 255, so that none saturates; with at most 255
  address spaces that is always so, and without it no counts can be right (`Spaces.FewSpacesCountable`,
  `ForkStep.CountedOnlyIf`). `free_frame`, `incref` and `decref` require what their assertions demand, and every call in
  the model is proved to meet it.
* Scheduler: slot 0 is idle, which neither exits nor blocks nor faults; the allocators hand out addresses that are not in
  use; a system call runs with interrupts off from entry to its forced switch, so blocking and switching are one step.

## Where the code falls short of its own description

The members named here state the exact conditions.

* Frame-allocator start-up counts a frame twice when two usable regions share it; the free count is right if and only
  if none do (`Pmm.SumIsSizeIff`, `Pmm.FrameAllocator.Init`).
* The description of `copy_user_pages` says a write fault at refcount 1 kills the process; the code makes the page
  writable instead, so read-only pages do not stay read-only. The model follows the code.
* When `copy_user_pages` fails, `sys_fork` returns without freeing the child's PML4 frame. When the copy succeeds but no
  kernel stack or process slot is left, it returns without freeing anything: the child's tables stay allocated and its
  pages stay counted in an address space that no process owns (`Vmm.Machine.SysFork`). A kernel stack it had got is lost
  too, and `spawn_user` loses the PML4 when the scheduler finds no slot or stack (`SchedOwner.LostIff`,
  `SchedOwner.RunLostIff`).
* `max_cluster` is a constant of the variant. On a volume whose table is smaller the scan for free clusters leaves the
  table and goes on in its second copy; it stays inside if and only if the table has a free entry from the hint on
  (`FatVolume.ScanStays`, `FatVolume.BeyondIsNextCopy`), and the free count is right if and only if nothing behind the
  table reads as zero (`FatVolume.CountRightIff`, `FatVolume.MirroredMiscounts`; on one small volume
  `FatCases.ScanLeavesTable`, `FatCases.FullMiscounted`).
* `write_file_data` puts bytes where they belong only for some offsets (`FatPlace.RightlyIff`,
  `FatCases.SecondSectorMisplaced`); `close` uses offset 0.
* `close` grows a file from its first cluster instead of its last. The chain it writes to is the chain on disk if and
  only if nothing was added or the chain had one cluster (`FatGrowth.GrownIff`, `FatGrowth.TwoClustersCutOff`,
  `FatClose.GrownCoveredIff`).
* When `extend_chain` fails, `close` leaves the loop but still records the full size; it is then covered if and only if
  the failing cluster was the last one needed and its link reached copy 0 (`FatClose.TornCoveredIff`,
  `FatCases.TornUncovered`). When the chain cannot be read, `close` goes on with an empty one. Truncation frees the
  chain before the size is updated, and an entry that named it goes on naming the freed cluster
  (`FatClose.FreeingBreaks`, `FatClose.TruncatedSaved`, `FatCases.TruncationDangles`).
* `close` never writes a first cluster into the directory entry. A file that had none is stored and its size recorded,
  but it opens as zeros (`FatFile.UnlinkedReopens`); a file whose entry names its chain opens as it was closed
  (`FatFile.ClosedReopens`, `FatFile.ReopensIff`).
* `sys_fork` neither advances the slot's generation nor sets the child's, so a forked process can be handed a zombie
  left by an earlier occupant of its slot (`SchedFamily.BirthKeepsIff`, `SchedLeftover.ForkCrossesFamilies`).
* A signal to the foreground group wakes waiting parents by their wake reason alone, so a process that the signal kills,
  or that was killed while it waited for a child, can be Ready again (`SchedOwner.RevivedIff`,
  `SchedOwner.WaitingParentSurvives`). It has kept its stack and its address space: no process without a stack is ever
  woken (`SchedOwner.RunOwned`).
* An ELF segment that starts inside a page and spans more than one page makes the copy run past its frame
  (`Elf.FramedIff`, `Elf.UnalignedOverruns`). Bytes of a page outside its segment keep what the frame held before.
* `load_initrd` means to skip zero padding between archives. It passes over zeros one by one while six of them lie
  ahead, so it takes the last ones before a header for a header and stops: padding is skipped if and only if there is
  none or nothing follows that would arrive (`Initrd.ZeroStops`, `Initrd.PaddingSkippedIff`, `Initrd.PaddingLosesFile`).

## Model

| member | source | states |
|---|---|---|
| Pmm.FrameAllocator.Init | indo-kernel/src/memory/pmm.rs:130-186 | The clear bits are exactly the usable frames other than frame 0; the free count equals their number, the refcount rule and all later operations hold, if and only if no usable frame is covered by two regions. |
| Pmm.SumIsSizeIff | indo-kernel/src/memory/pmm.rs:165-177 | Adding up region sizes counts every frame once exactly when no frame lies in two usable regions; otherwise it is too large. |
| Pmm.SharedFrameCountedTwice | indo-kernel/src/memory/pmm.rs:155-178 | Two regions that meet inside a frame: two frames, counted as three. |
| Pmm.CoverIff | indo-kernel/src/memory/pmm.rs:155-178 | A usable region covers exactly the frames below the frame count that hold one of its bytes, partial first and last frames included; a region without bytes covers the frame its start cuts. |
| Pmm.CountFrames | indo-kernel/src/memory/pmm.rs:133-145 | The frame count is the end of the highest region, capped at the bitmap. |
| Pmm.FrameAllocator.AllocFrame | indo-kernel/src/memory/pmm.rs:198-219 | Returns the lowest clear frame from 1 on, never frame 0, with refcount 1; nothing exactly when every frame from 1 on is taken. |
| Pmm.FrameAllocator.FreeFrame | indo-kernel/src/memory/pmm.rs:222-262 | Clears the one bit and refcount and keeps free count = clear bits; its preconditions are the assertions of the source. |
| Pmm.FreeUndoesAlloc | indo-kernel/src/memory/pmm.rs:198-262 | Freeing undoes allocating. |
| Pmm.FrameAllocator.Incref | indo-kernel/src/memory/pmm.rs:271-286 | Raises one refcount by one, stopping at 255. |
| Pmm.FrameAllocator.Decref | indo-kernel/src/memory/pmm.rs:297-317 | Lowers one refcount; at zero the frame becomes clear and the free count rises. |
| Pmm.DecrefUndoesIncref | indo-kernel/src/memory/pmm.rs:271-317 | decref undoes incref exactly below saturation: if and only if the count was under 255. |
| Pmm.FrameAllocator.MarkRegionUsed | indo-kernel/src/memory/pmm.rs:341-367 | Sets exactly the bits of the region's frames below the frame count and keeps the free count exact. |
| Pmm.SetBitAt | indo-kernel/src/memory/pmm.rs:86-95 | Setting one bit of the packed bitmap sets that frame and no other. |
| Pmm.ClearBitAt | indo-kernel/src/memory/pmm.rs:97-106 | Clearing one bit clears that frame and no other. |
| Pmm.MaskIs | indo-kernel/src/memory/pmm.rs:86-106 | Frame f is bit f mod 8 of its byte, the lowest bit first. |
| PageTables.PageAddressRoundTrip | indo-kernel/src/memory/vmm.rs:173-216 | The four 9-bit indices of a page and its address determine each other (page to address and back). |
| PageTables.AddressPageRoundTrip | indo-kernel/src/memory/vmm.rs:173-216 | The same from address to page and back. |
| PageTables.TableFraming | indo-kernel/src/memory/vmm.rs:173-216 | The tree read out of memory depends on its own table frames only. |
| PageTables.LookupCounts | indo-kernel/src/memory/vmm.rs:173-216 | A page found by the walk is one of the leaf entries counted for its frame. |
| PageTables.LookupCountsTwice | indo-kernel/src/memory/vmm.rs:173-216 | Two different pages on one frame are two counted leaf entries. |
| PageUpdate.TreeIsHardware | indo-kernel/src/memory/vmm.rs:173-216 | The tree read out of memory maps every page exactly as the processor's own walk does over the raw words: four entries, each present, the middle two not huge; and a path is open exactly if all three upper entries allow user stores. |
| Vmm.Machine.WalkToPte | indo-kernel/src/memory/vmm.rs:173-216 | Finds the level-1 table exactly for mapped pages, and there the page's entry. |
| PageUpdate.WriteLeaf | indo-kernel/src/memory/vmm.rs:794-821 | Writing one leaf entry in memory is the update of that leaf in the tree. |
| PageUpdate.ReadLeaf | indo-kernel/src/memory/vmm.rs:173-216 | The word at the place the walk names is the entry the tree has for the page. |
| PageUpdate.SetLeafLookup | indo-kernel/src/memory/vmm.rs:794-821 | After the update that page has the new entry and every other page its old one. |
| PageGraft.GraftLookup | indo-kernel/src/memory/vmm.rs:112-130 | Mapping one page, with new intermediate tables, adds that page and moves no other. |
| PageGraft.GraftFrames | indo-kernel/src/memory/vmm.rs:112-130 | The tree's table frames grow by exactly the frames allocated for intermediate tables. |
| PageGraft.GraftPath | indo-kernel/src/memory/vmm.rs:112-130 | Mapping with WRITABLE and USER leaves every level above the new page open to user stores, closes no page's path, and without both flags opens none. |
| Vmm.Machine.MapAt | indo-kernel/src/memory/vmm.rs:112-130 | The walk that creates missing tables, and widens the permissions of the tables it passes, maps the page into the tree with exactly the frames it took, and only where there is room for it; it fails only where there is none (the page is taken, or a huge or odd entry is in the way) or once no frame is left. |
| PageGraft.RoomFraming | indo-kernel/src/memory/vmm.rs:112-130 | Whether there is room for a page depends on the tree's own table frames only. |
| Vmm.Machine.CreateUserPml4 | indo-kernel/src/memory/vmm.rs:320-353 | A fresh PML4: lower half empty, upper half the kernel's; fails exactly when no frame is free. |
| ForkCopy.WeakenedKeeps | indo-kernel/src/memory/vmm.rs:707-727 | Clearing WRITABLE bits changes no mapping: same frames, same tables, same pages. |
| ForkCopy.TwinAgrees | indo-kernel/src/memory/vmm.rs:594-751 | The child's tree maps every page to the parent's entry. |
| ForkCopy.ReadOnlyLookup | indo-kernel/src/memory/vmm.rs:707-727 | After a fork no leaf of the shared tree is writable. |
| Vmm.Machine.CopyTable | indo-kernel/src/memory/vmm.rs:616-733 | The four nested loops, one level at a time: shared leaves demoted and counted, new tables hung in, and exact accounts also when frames run out at any depth; success costs one frame per table below, and failure means none is left. |
| Vmm.Machine.CopyBelow | indo-kernel/src/memory/vmm.rs:628-694 | A new table for one entry and the copy below it: on success the loop has handled one entry more, at the cost of exactly the tables below it; out of frames, the accounts are still exact. |
| Vmm.Machine.ShareEntry | indo-kernel/src/memory/vmm.rs:695-725 | One leaf: counted once more and mapped read-only by both. |
| Vmm.Machine.Rollback | indo-kernel/src/memory/vmm.rs:733-743 | Undoing the recorded allocations and increments restores bitmap, refcounts and free count exactly. |
| Vmm.Machine.CopyUserPages | indo-kernel/src/memory/vmm.rs:594-751 | Success yields twin trees and one more count per leaf; failure restores the frame allocator exactly and leaves the parent's mapping unchanged except for cleared WRITABLE bits. It succeeds if and only if there is a free frame for every table below the parent's PML4. |
| ForkCost.EnoughIff | indo-kernel/src/memory/vmm.rs:616-743 | The copy succeeds if and only if the free frames are at least as many as the parent's tables below its PML4. |
| ForkCost.TablesAreFrames | indo-kernel/src/memory/vmm.rs:616-733 | The number of tables in a sound tree is the number of its table frames. |
| ForkCopy.UndoAlloc | indo-kernel/src/memory/vmm.rs:735-738 | Freeing a recorded new table takes it out of the accounts. |
| ForkCopy.UndoIncref | indo-kernel/src/memory/vmm.rs:739-743 | Lowering a recorded increment takes it out of the accounts. |
| Vmm.Machine.FreeTable | indo-kernel/src/memory/vmm.rs:488-570 | Frees every table below and drops one count per leaf, never failing an allocator assertion. |
| Vmm.Machine.FreeUserAddressSpace | indo-kernel/src/memory/vmm.rs:488-578 | Releases exactly the tree's table frames and one count per leaf. |
| Vmm.Machine.CopyFrame | indo-kernel/src/memory/vmm.rs:794-816 | The private copy: new frame with the old contents, entry redirected and writable, old count lowered. |
| Vmm.Machine.HandleCowFault | indo-kernel/src/memory/vmm.rs:760-848 | Succeeds exactly when the page is mapped and either shared with a frame left or read-only and alone; then the page is writable and private, otherwise nothing changed. |
| Vmm.Machine.MmuWritable | indo-kernel/src/idt.rs:635-641 | The processor lets a user store through exactly when every level and the leaf allow it. |
| Vmm.Machine.UserWrite | indo-kernel/src/idt.rs:635-641 | Store, fault, retry: ends, needs at most one resolved fault, and succeeds exactly when the path is open and the page is private or a frame is left. |
| CowRefinement.FaultOnce | indo-kernel/src/memory/vmm.rs:760-848 | A page that a fault has just resolved does not fault again. |
| CowRefinement.WriteFailed | indo-kernel/src/memory/vmm.rs:760-848 | A store that still faults after an unresolvable fault was one that cannot succeed. |
| CowRefinement.WriteStored | indo-kernel/src/memory/vmm.rs:760-848 | A store let through is the write step of the refinement. |
| ForkStep.ForkKeeps | indo-kernel/src/memory/vmm.rs:594-751 | fork keeps, over all live address spaces: refcount = number of leaf entries, table frames have count 1 and one referrer, writable leaves have count 1. |
| ForkStep.ForkView | indo-kernel/src/memory/vmm.rs:594-751 | After fork the child reads the parent's bytes and everybody else their own. |
| CowSteps.ForkFailedKeeps | indo-kernel/src/memory/vmm.rs:600-742 | A failed fork keeps the invariant and every process's bytes. |
| CowSteps.CopyKeeps | indo-kernel/src/memory/vmm.rs:794-816 | The copying fault keeps the invariant and all bytes, and redirects one page. |
| CowSteps.OwnerKeeps | indo-kernel/src/memory/vmm.rs:817-821 | The sole-owner fault keeps the invariant and all bytes, and makes the page writable. |
| CowSteps.StoreKeeps | indo-kernel/src/memory/vmm.rs:760-848 | A store to a writable page changes that word for that process alone. |
| CowSteps.MapKeeps | indo-kernel/src/memory/vmm.rs:112-130 | Mapping keeps the invariant and adds one page to one process. |
| CowSteps.ExitKeeps | indo-kernel/src/memory/vmm.rs:488-578 | Freeing one address space keeps the invariant and every other process's bytes. |
| CowSteps.ExitFrees | indo-kernel/src/memory/vmm.rs:488-578 | A frame becomes free if and only if it was one of the dead tables or a page that no other address space maps. |
| Spaces.SoleMapping | indo-kernel/src/memory/pmm.rs:271-317 | Refcount 1 means one page of one process. |
| Spaces.MappedFrame | indo-kernel/src/memory/pmm.rs:271-317 | A mapped frame is allocated, its refcount is the number of mappings, and it is nobody's table. |
| ForkStep.ForkCanCopy | indo-kernel/src/memory/vmm.rs:703-706 | If every frame the parent maps has a count below 255, the copy meets what it needs: no count saturates on the way ... |
| ForkStep.CountedOnlyIf | indo-kernel/src/memory/pmm.rs:271-286 | ... and only if: no counts are right for a child that shares a frame whose count is at its ceiling. |
| Spaces.FewSpacesCountable | indo-kernel/src/memory/pmm.rs:271-286 | While there are at most 255 address spaces every space is countable; the table and the deferred list hold 40, abandoned children come on top. |
| CowRefinement.StepRefines | indo-kernel/src/memory/vmm.rs:594-848 | Each kernel step is one step of a system with private memory, as every process sees it. |
| CowRefinement.RunRefines | indo-kernel/src/memory/vmm.rs:594-848 | Over every run of spawn, map, fork, store and exit the invariant holds and each process reads exactly the bytes of the private-memory system. |
| CowRefinement.InitialState | indo-kernel/src/memory/vmm.rs:594-848 | Before any process exists the invariant holds. |
| CowRefinement.ForkThenExit | indo-kernel/src/memory/vmm.rs:488-751 | Freeing the child of a fork restores bitmap, refcounts and free frames exactly, and nobody's bytes change. |
| Vmm.Machine.SpawnSpace | indo-kernel/src/memory/vmm.rs:320-352 | Creating an address space is the spawn step; it fails exactly when no frame is free. |
| Vmm.Machine.MapPage | indo-kernel/src/memory/vmm.rs:112-130 | Allocating, filling and mapping a page is the map step, which leaves the leaf with the flags asked for and the path above it open to user stores exactly as MapOpens says; it fails only where the space has no room for the page or frames have run out. |
| CowRefinement.MapOpens | indo-kernel/src/memory/vmm.rs:112-130 | After the map step: a page mapped WRITABLE and USER can be stored to by its process; every path that was open to user stores stays open, in every address space; without both flags no path is opened. |
| CowRefinement.ForkOpens | indo-kernel/src/memory/vmm.rs:594-751 | A fork, finished or failed, changes nobody's paths to their pages but the child's, and opens one to every page the child gets. After a finished one each leaf of parent and child is the parent's with WRITABLE cleared, after a failed one each of the parent's is the old one or that; everyone else's leaves stay. |
| Vmm.Machine.ForkSpace | indo-kernel/src/syscall/mod.rs:1316-1324 | Creating the child PML4 and copying into it is the fork step, for a parent whose pages can all be counted once more; it succeeds if and only if there is a free frame for every table of the parent, and then takes exactly that many; nothing is allocated if and only if no frame is free; on a failed copy the child PML4 stays allocated, one frame and no more. |
| Vmm.Machine.SysFork | indo-kernel/src/syscall/mod.rs:1316-1453 | The memory side of sys_fork: exactly which of its ends it takes; without a kernel stack or a process slot it fails after the copy and leaves the complete child behind, one frame per table of the parent and one count per page, in a space no process owns. What becomes of the kernel stack is stated by SchedKernel.Scheduler.SysFork. |
| ForkCost.FramesLeft | indo-kernel/src/memory/vmm.rs:616-733 | A finished copy leaves as many frames fewer as the parent has tables below its PML4. |
| Vmm.Machine.ExitSpace | indo-kernel/src/memory/vmm.rs:488-578 | Freeing an address space is the exit step. |
| FatDisk.EncodeDecode | indo-kernel/src/fat32.rs:341-415 | An entry written is read back, cut to 16 or 28 bits. |
| FatDisk.PutCopiesView | indo-kernel/src/fat32.rs:376-415 | Writing an entry to n copies is a one-entry update of those tables and of no other. |
| FatDisk.PutCopiesFrame | indo-kernel/src/fat32.rs:376-415 | Every byte of the disk outside the cluster's entries keeps its value. |
| FatDisk.PutCopiesNibble | indo-kernel/src/fat32.rs:393-411 | The reserved top four bits of a FAT32 entry survive in every copy. |
| FatDisk.PutCopiesMirrored | indo-kernel/src/fat32.rs:376-415 | Copies equal byte for byte stay equal. |
| FatDisk.EntriesApart | indo-kernel/src/fat32.rs:341-415 | Entries do not overlap and copies do not share sectors. |
| FatLaws.TableAt | indo-kernel/src/fat32.rs:341-373 | Entry c of the table is the little-endian number in the two (FAT16) or four (FAT32, top four bits dropped) bytes at byte 2c or 4c behind the reserved sectors of the device. |
| FatLaws.EndIff | indo-kernel/src/fat32.rs:203-208 | An entry ends its chain if and only if its bytes are F8 FF to FF FF, for FAT32 F8 FF FF xF to FF FF FF xF. |
| FatVolume.Volume.ReadSector | indo-kernel/src/block/mod.rs:67-79 | A read that succeeds returns the sector; on a reliable device every sector on the disk is read, otherwise it may fail at any time. |
| FatVolume.Volume.WriteSector | indo-kernel/src/block/mod.rs:81-93 | A write that succeeds replaces one sector; a failed one leaves the disk as it was; on a reliable device every sector on the disk is written. |
| FatVolume.Volume.ReadFatEntry | indo-kernel/src/fat32.rs:341-373 | Delivers the entry the sector number leads to, for any cluster; within the table that is the entry of copy 0; it succeeds on a reliable device whenever the sector exists. |
| FatVolume.Volume.WriteFatEntry | indo-kernel/src/fat32.rs:376-415 | Writes to every copy, for any cluster, exactly where the sector numbers lead. For a cluster of the table every disk seen on the way shows the whole update in copy 0 and nothing outside the table; success reaches all copies, keeps them mirrored, and is certain on a reliable device. |
| FatVolume.Volume.AllocateCluster | indo-kernel/src/fat32.rs:419-446 | The first cluster that reads as free from the hint on, wrapping to 2, becomes an end mark in all copies, for any hint and any size of table; no-space exactly reports that none reads as free; a free entry of the table from the hint on guarantees success on a reliable device. |
| FatVolume.ScanStays | indo-kernel/src/fat32.rs:419-446 | The scan picks a cluster of the table from the hint on if and only if the table has a free entry there; otherwise it has left the table or wrapped. |
| FatLaws.NextTaken | indo-kernel/src/fat32.rs:1533-1538 | The cluster growth takes is the lowest free one behind the last cluster, from 2 on, while the table has one there. |
| FatLaws.TakenIff | indo-kernel/src/fat32.rs:419-446 | From the hint on, a cluster is taken if and only if its entry is zero, none before it is, and it is at most FFF0, or 0FFFFFF0 on FAT32. |
| FatLaws.UsableIff | indo-kernel/src/fat32.rs:210-216 | The clusters the scan can deliver are those with an entry, up to FFF0 or 0FFFFFF0. |
| FatVolume.BeyondIsNextCopy | indo-kernel/src/fat32.rs:341-373 | Behind the end of the table the driver reads the second copy, entry for entry. |
| FatVolume.Volume.ExtendChain | indo-kernel/src/fat32.rs:462-472 | Two entry updates, in that order, on every disk seen, for clusters of the table. |
| FatVolume.Volume.ReadClusterChain | indo-kernel/src/fat32.rs:491-512 | Delivers the walk through what the driver takes for the table, cut after 0x100001 clusters; ends also on a cyclic table. |
| FatVolume.ChainWalked | indo-kernel/src/fat32.rs:491-512 | A chain of the table lies within it, and is exactly what that walk delivers. |
| FatVolume.Volume.FreeClusterChain | indo-kernel/src/fat32.rs:449-459 | Zeroes exactly the walked clusters in every copy, one after the other on every disk seen, and nothing outside the table, when they lie in it. |
| FatVolume.Volume.CountFreeClusters | indo-kernel/src/fat32.rs:475-488 | The number of entries up to the largest cluster number that read as zero. |
| FatVolume.CountRightIff | indo-kernel/src/fat32.rs:475-488 | That number is the number of free entries of the table if and only if nothing behind the table reads as zero. |
| FatVolume.MirroredMiscounts | indo-kernel/src/fat32.rs:475-488 | With mirrored copies one free entry that the scan meets again behind the table makes the number wrong. |
| FatCases.FullMiscounted | indo-kernel/src/fat32.rs:475-488 | A full volume of 256 entries is said to have free clusters. |
| FatCases.ScanLeavesTable | indo-kernel/src/fat32.rs:419-446 | On that volume the scan takes cluster 512, whose entry is the first data sector. |
| FatChains.ChainAcyclic | indo-kernel/src/fat32.rs:491-512 | A chain that ends never repeats a cluster. |
| FatChains.ChainUnique | indo-kernel/src/fat32.rs:491-512 | A first cluster has one chain. |
| FatChains.WalkChain | indo-kernel/src/fat32.rs:491-512 | The walk from a chain's first cluster is that chain. |
| FatChains.WalkIsChain | indo-kernel/src/fat32.rs:491-512 | The walk is a chain if and only if it stopped on an end mark. |
| FatChains.AllocateKeeps | indo-kernel/src/fat32.rs:419-446 | Allocation adds a one-cluster chain to the set of disjoint chains. |
| FatChains.ExtendKeeps | indo-kernel/src/fat32.rs:462-472 | Extending at the tail joins the new cluster to that chain; all others stay, all disjoint. |
| FatChains.FreeKeeps | indo-kernel/src/fat32.rs:449-459 | Freeing removes one chain and leaves the others. |
| FatChains.FreeCount | indo-kernel/src/fat32.rs:449-488 | The free count rises by exactly the chain's length. |
| FatChains.AllocateCount | indo-kernel/src/fat32.rs:419-488 | The free count falls by exactly one. |
| FatChains.RunKeeps | indo-kernel/src/fat32.rs:419-512 | Over every run of allocate, extend and free the chains stay acyclic, ended and disjoint, and the free count moves by exactly what was taken and given. |
| FatChains.GrowFromFirst | indo-kernel/src/fat32.rs:1533-1542 | Linking behind the first cluster yields the expected chain if and only if the chain had one cluster. |
| FatData.LbasDistinct | indo-kernel/src/fat32.rs:198-200 | A duplicate-free chain has no sector twice. |
| FatData.LbasDisjoint | indo-kernel/src/fat32.rs:198-200 | Chains without a common cluster have no common sector. |
| FatData.ViewSame | indo-kernel/src/fat32.rs:198-200 | Data sectors never hold the table. |
| FatLaws.FileByteAt | indo-kernel/src/fat32.rs:196-200 | Byte o of sector s of the i-th cluster of a file is that byte of that sector of the cluster on the device, cluster 2 being the first behind the tables. |
| FatLaws.LowClusters | indo-kernel/src/fat32.rs:196-200 | Clusters 0 and 1 lead to the sector of cluster 2. |
| FatData.FlushedAt | indo-kernel/src/fat32.rs:547-596 | Each sector is overlaid once, on its old contents. |
| FatData.FlushedFrame | indo-kernel/src/fat32.rs:547-596 | No sector outside the chain changes: not the table, not a directory, not another file. |
| FatData.FlushedReadBack | indo-kernel/src/fat32.rs:515-596 | What was written is what is read back. |
| FatVolume.Volume.WriteFileData | indo-kernel/src/fat32.rs:547-596 | For any offset: which piece of the buffer goes to which sector, at which place in it, and how many bytes; the trace holds every disk on the way. |
| FatPlace.RightlyIff | indo-kernel/src/fat32.rs:547-596 | Every byte lands at offset plus its index if and only if the offset starts a cluster, or lies in its first sector and the buffer ends there or clusters have one sector. |
| FatCases.SecondSectorMisplaced | indo-kernel/src/fat32.rs:547-596 | With two sectors per cluster, a byte for offset 512 lands at offset 0. |
| FatPlace.PlacedByte | indo-kernel/src/fat32.rs:575-590 | Each byte of the buffer is found where its piece was put. |
| FatPlace.PlacedFlat | indo-kernel/src/fat32.rs:547-596 | From the start of the file this is the plain sector-by-sector flush. |
| FatVolume.Volume.ReadFileData | indo-kernel/src/fat32.rs:515-544 | Fills the buffer with the chain's bytes up to its length and leaves the rest. |
| FatDirs.ParseDirEntries | indo-kernel/src/fat32.rs:635-685 | The listing is the reference scan, for arbitrary bytes. |
| FatDirs.ParseDirEntry | indo-kernel/src/fat32.rs:240-293 | One 32-byte entry: skipped, or name, attributes, first cluster and size. |
| FatNames.NamePrinted | indo-kernel/src/fat32.rs:301-326 | A name of the form stem.ext, or stem alone, becomes the 11 bytes of its two parts in capitals, each padded with spaces. |
| FatLaws.SlotIff | indo-kernel/src/fat32.rs:635-685 | What 32 arbitrary bytes of a directory are, by the first and the twelfth: end, piece of a long name, passed over (deleted, or bit 3 of the attributes), or an entry, whose attributes, first cluster and size are these bytes. |
| FatNames.EntryRoundTrip | indo-kernel/src/fat32.rs:243-293 | A directory entry printed field by field, with its name as name_to_83 gives it, is read back: stem, dot and extension (no dot without one), attributes, all 32 bits of the first cluster from its two halves, and size. |
| FatNames.DirectoryRoundTrip | indo-kernel/src/fat32.rs:635-685 | A directory printed entry by entry is listed as those entries, in order. |
| FatNames.LookupWritten | indo-kernel/src/fat32.rs:920-980 | An entry is found under the name it was printed with, if no entry before it has that name. |
| FatNames.LongNamed | indo-kernel/src/fat32.rs:646-667 | A long-name slot printed with its 13 characters in their three places gives the entry behind it that name. |
| FatDirs.AppendLfn | indo-kernel/src/fat32.rs:646-667 | Collects the long-name characters up to the terminator. |
| FatDirs.FirstIs | indo-kernel/src/fat32.rs:920-980 | The entry found by name is the first one of that name; none is found exactly when there is none. |
| FatDirs.ScanPatch | indo-kernel/src/fat32.rs:830-1009 | Rewriting the k-th entry changes that entry of the parse and no other. |
| FatDirs.PatchLookup | indo-kernel/src/fat32.rs:830-1009 | Deleting the entry looked up removes exactly it from the parse; a size update changes only its size. |
| FatDirs.ResizeLookup | indo-kernel/src/fat32.rs:830-917 | After a size update the name leads to the same entry with the new size. |
| FatVolume.Volume.ReadDirBytes | indo-kernel/src/fat32.rs:688-705 | All bytes of the directory's chain, in order. |
| FatVolume.Volume.ReadDirEntriesFromChain | indo-kernel/src/fat32.rs:688-705 | The parse of those bytes. |
| FatVolume.Volume.FindDirEntry | indo-kernel/src/fat32.rs:920-980 | Offset of the first entry of that name in the parse; not-found exactly when there is none. |
| FatVolume.Volume.LookupDirEntry | indo-kernel/src/fat32.rs:1014-1073 | The same entry, parsed. |
| FatVolume.Volume.DeleteDirEntry | indo-kernel/src/fat32.rs:982-1011 | Marks exactly that entry deleted on disk, rewriting one sector. |
| FatVolume.Volume.UpdateDirEntrySize | indo-kernel/src/fat32.rs:830-917 | Rewrites exactly that entry's size on disk, rewriting one sector. |
| FatVolume.SectorOfEntry | indo-kernel/src/fat32.rs:897-914 | The cluster and sector arithmetic of the write-back meets the sector that holds the byte. |
| FatGrowth.GrownIff | indo-kernel/src/fat32.rs:1532-1560 | The chain close writes to is the chain on disk if and only if it did not grow or had one cluster. |
| FatGrowth.TwoClustersCutOff | indo-kernel/src/fat32.rs:1532-1560 | A file of two clusters, grown by a third: the second is cut off. |
| FatGrowth.SeenChain | indo-kernel/src/fat32.rs:1532-1560 | In each table seen while a one-cluster file grows, its chain is the old one, possibly longer. |
| FatGrowth.SeenKeepsChain | indo-kernel/src/fat32.rs:1532-1560 | In each of these tables every other chain is what it was. |
| FatGrowth.RoomyStep | indo-kernel/src/fat32.rs:1533-1538 | While the table has as many free entries behind the last cluster as are still needed, each pick lies in the table and leaves enough for the rest. |
| FatFile.FileHandle.GrowChain | indo-kernel/src/fat32.rs:1532-1560 | Which tables can be seen while clusters are allocated and linked, for any first cluster and also when the device fails; with enough free entries behind the first cluster, or a table of full size, every pick lies in the table, and on a reliable device growth ends only with the chain long enough or the volume full. |
| FatFile.FileHandle.FlushData | indo-kernel/src/fat32.rs:1520-1567 | After every sector write of chain and data phases the file is safe and every other file untouched; a completed flush stores the buffer. On a reliable device the flush completes unless the volume is full or the chain leaves the disk. |
| FatFile.FileHandle.Close | indo-kernel/src/fat32.rs:1502-1593 | After every single sector write: the entry names a chain that is well formed in copy 0 and covers the recorded size, each data sector is wholly old or wholly new, and every other file in use has its chain and contents; a completed close has saved size and contents, and has changed nothing in the entry but the size, also for a file that had no cluster. With a size of zero: what truncation leaves. On a reliable device a dirty file is saved unless the volume is full or the chain leaves the disk, or its chain is freed. |
| FatClose.GrowthAllSafe | indo-kernel/src/fat32.rs:1532-1560 | Chain phase: every disk seen is safe. |
| FatClose.FlushAllSafe | indo-kernel/src/fat32.rs:547-596 | Data phase: every disk seen is safe. |
| FatClose.ResizeSafe | indo-kernel/src/fat32.rs:1580-1589 | Size phase: the last write is safe. |
| FatClose.GrowthAllOthers | indo-kernel/src/fat32.rs:1532-1560 | Chain phase: every chain that shares no cluster with the file is still a chain with the same sectors, on every disk seen, also for a file without clusters. |
| FatClose.FlushAllOthers | indo-kernel/src/fat32.rs:547-596 | Data phase: the same. |
| FatClose.ResizeOthers | indo-kernel/src/fat32.rs:1580-1589 | Size phase: the same, but for the directory itself. |
| FatClose.FreeOthers | indo-kernel/src/fat32.rs:1573-1578 | Truncation: the same. |
| FatClose.GrownCoveredIff | indo-kernel/src/fat32.rs:1532-1589 | After growth and size update the size in an entry that names the file is covered if and only if no growth was needed or the chain had one cluster. |
| FatClose.TornCoveredIff | indo-kernel/src/fat32.rs:1541-1589 | When extend_chain fails and the size is recorded all the same, it is covered if and only if the failing cluster was the last one needed and its link reached copy 0. |
| FatCases.TornUncovered | indo-kernel/src/fat32.rs:1541-1589 | A one-cluster file grown to 600 bytes whose link fails: size 600 is recorded over one cluster of 512. |
| FatClose.FreeingBreaks | indo-kernel/src/fat32.rs:1573-1578 | Truncation: from the first table write on, an entry that named the file goes on naming its first cluster, and no well-formed chain starts there; no chain at all can make it a healthy file. |
| FatClose.TruncatedSaved | indo-kernel/src/fat32.rs:1573-1589 | On every disk of the truncation the table is the old one or the first cluster has no chain, and an entry that named that cluster still does; recording size 0 changes nothing else in the entry. |
| FatCases.TruncationDangles | indo-kernel/src/fat32.rs:1573-1578 | A file in cluster 2: after the first of the two table writes no chain fits its entry. |
| FatFile.FileHandle.Read | indo-kernel/src/fat32.rs:1469-1478 | Returns the bytes at the position and advances. |
| FatFile.FileHandle.Write | indo-kernel/src/fat32.rs:1480-1495 | Replaces the bytes at the position, filling a gap with zeros, and marks the buffer dirty. |
| FatFile.Open | indo-kernel/src/fat32.rs:1438-1456 | The buffer holds the bytes of the sectors of the chain walked from the first cluster, then zeros up to the size; succeeds on a reliable device when entries and sectors of the chain are on the disk. |
| FatFile.CreateChildFile | indo-kernel/src/fat32.rs:1235-1275 | Opens the first file entry of that name with the bytes, first cluster and size it leads to, or a new empty file without a cluster exactly when there is none. |
| FatLaws.DirectoryBit | indo-kernel/src/fat32.rs:295-297 | An entry is a directory if and only if bit 4 of its attributes is set. |
| FatFile.ClosedReopens | indo-kernel/src/fat32.rs:1240-1262 | Close, then open by name: a saved file whose entry names its first cluster comes back byte for byte. |
| FatFile.UnlinkedReopens | indo-kernel/src/fat32.rs:1558-1589 | A file that had no cluster is written and its size recorded, but its entry still names none: it opens as zeros, so the buffer comes back if and only if it was all zeros. |
| FatFile.ReopensIff | indo-kernel/src/fat32.rs:1240-1262 | Both together: after a saved close, opening by name returns the buffer if and only if the entry named a first cluster, or the buffer is all zeros. |
| FatFile.DeleteChildFile | indo-kernel/src/fat32.rs:1414-1429 | The entry leaves the parse and its chain is zero in every copy, when the chain lies in the table; on a reliable device it then fails only for a missing entry. |
| FatFile.DeletedCount | indo-kernel/src/fat32.rs:1414-1429 | Deleting a file gives back exactly its clusters. |
| SchedKernel.Scheduler.FindNextReady | indo-kernel/src/process/scheduler.rs:219-243 | The two-pass search, equal to its specification. |
| SchedRun.SearchNearest | indo-kernel/src/process/scheduler.rs:219-243 | The process found is the Ready one nearest behind the current slot, never idle. |
| SchedRun.IdleOnlyAlone | indo-kernel/src/process/scheduler.rs:219-315 | Whatever chooses a process (a tick at the quantum, a tick that finds the current slot empty, a forced switch, a kill, the first dispatch): if it chooses idle, then in the table it leaves, after signal delivery, nobody else is Ready. |
| SchedRun.StepOneRunning | indo-kernel/src/process/scheduler.rs:138-455 | Tick, force, kill, first dispatch, exit, block, signals to the foreground group or to one process, handlers, groups, wake-ups, spawn, fork and reap keep at most one Running process, the current one. |
| SchedRun.RunOneRunning | indo-kernel/src/process/mod.rs:203-500 | The same over every run. |
| SchedRun.ChoiceNearer | indo-kernel/src/process/scheduler.rs:219-315 | A Ready process that is passed over is strictly nearer to the new current one. |
| SchedRun.StepPatience | indo-kernel/src/process/scheduler.rs:138-182 | Each tick, and each switch by a whole quantum, shortens the time until a waiting process must be chosen. |
| SchedRun.BoundedWaiting | indo-kernel/src/process/scheduler.rs:138-315 | A non-idle process that stays Ready is chosen within 31 switches and within 31 x 5 ticks, while the current slot is occupied. |
| SchedKernel.Scheduler.SwitchNext | indo-kernel/src/process/scheduler.rs:245-275 | Leave, choose, run; equal to its specification. |
| SchedKernel.Scheduler.SwitchNextForce | indo-kernel/src/process/scheduler.rs:278-315 | The same followed by signal delivery to the new process. |
| SchedKernel.Scheduler.OnTick | indo-kernel/src/process/scheduler.rs:138-182 | Wakes sleepers, counts, switches at the quantum, replaces a dangling current process; what that means for each slot is said by the four rows below. |
| SchedLaws.SleeperIff | indo-kernel/src/process/scheduler.rs:138-162 | A tick leaves a sleeping process exactly as it is if and only if its deadline has not come. |
| SchedLaws.SleeperResumes | indo-kernel/src/process/scheduler.rs:138-182 | From its deadline on a sleeper is awake after the tick with all else unchanged, and Ready, or Running if the tick chose it; unless a pending signal acted on it. |
| SchedLaws.WokenIff | indo-kernel/src/process/mod.rs:203-500 | For every step and every process that waits: it loses its reason to wait if and only if it is roused, by a clock at its deadline, a key, a pipe with bytes or without writers, a pipe with room or without readers, a dead or killed child, a signal acting on the child, or a stop signal; told by the fields of the table and of the pipes. |
| SchedLaws.WokenResumes | indo-kernel/src/process/mod.rs:203-500 | A process that is roused is awake, Ready or, if the step chose it, Running, and otherwise unchanged. |
| SchedCalls.TickRuns | indo-kernel/src/process/scheduler.rs:170-182 | Between two quanta a tick replaces a current process whose slot is empty, by a Ready one, else by idle if it is Ready, else by nobody, and does nothing else but wake sleepers. |
| SchedKernel.Scheduler.DispatchFirst | indo-kernel/src/process/scheduler.rs:395-405 | The first process to run. |
| SchedCalls.FirstRuns | indo-kernel/src/process/scheduler.rs:395-405 | With nobody running, a Ready process runs, else idle if it is Ready, else nobody; the quantum starts anew. |
| SchedKernel.Scheduler.DeliverSignal | indo-kernel/src/process/scheduler.rs:609-755 | Default actions, ignored and handled signals, and the waking of the parent by its wake reason alone. |
| SchedLaws.DeliveredTo | indo-kernel/src/process/scheduler.rs:609-755 | What delivery leaves of the process: signals 18 and 19 are only taken off, 20 stops it, every other default kills it with the signal as exit code; an ignored or handled signal is only taken off; a bad stack kills it with 11; without a frame it stays pending. |
| SchedLaws.DiesIff | indo-kernel/src/syscall/mod.rs:694-709 | For every step: a process dies if and only if it exits or is killed as the current one, is struck by signal 2 or 3 of the terminal without waiting for a victim, or is dispatched with a signal whose action is death; and the exit code it leaves: the low byte of the argument times 256, its old one, the signal, or 11. |
| SchedKernel.Scheduler.KillCurrent | indo-kernel/src/process/scheduler.rs:415-455 | Orphans go to init, the current process becomes a zombie, the next one runs. |
| SchedKernel.Scheduler.ReparentOrphansToInit | indo-kernel/src/process/scheduler.rs:586-603 | Exactly the children of that slot get init and its generation. |
| SchedKernel.Scheduler.SpawnUser | indo-kernel/src/process/scheduler.rs:104-131 | Lowest free slot, generation advanced, parent's generation recorded, one holder more for stack and PML4; without a slot or a stack the PML4 is lost, without a stack the generation is spent too. |
| SchedKernel.Scheduler.SpawnKernel | indo-kernel/src/process/scheduler.rs:89-102 | The same for kernel processes, which bring no PML4. |
| SchedCalls.UserBorn | indo-kernel/src/process/scheduler.rs:104-131 | The new user process, field by field, in the lowest free slot: Ready, no signals, default handlers, the slot's next generation (32 bits), its parent and the parent's generation, a group of its own; nothing else changes. |
| SchedCalls.KernelBorn | indo-kernel/src/process/scheduler.rs:89-102 | The same for a kernel process: no parent, group 0. |
| SchedCalls.Unborn | indo-kernel/src/process/scheduler.rs:89-131 | Without a kernel stack only the slot's generation is spent. |
| SchedKernel.Scheduler.SysFork | indo-kernel/src/syscall/mod.rs:1279-1453 | Every end of sys_fork: no caller, no frame for the PML4, pages not copied, no stack, no slot, no spare stack; a child exactly when all are there, otherwise what had been handed out is lost. Keeps the ownership invariant. |
| SchedCalls.ChildBorn | indo-kernel/src/syscall/mod.rs:1385-1450 | The forked child, field by field: of the caller's kind and group, child of the caller at the caller's generation, its own generation 0. |
| SchedKernel.Scheduler.FindAnyZombieChild | indo-kernel/src/process/scheduler.rs:522-536 | The lowest matching zombie; none exactly when there is none. |
| SchedKernel.Scheduler.KeyboardWake | indo-kernel/src/process/mod.rs:203-284 | Both phases wake exactly the Blocked processes whose reason is met. |
| SchedKernel.Scheduler.WakeWaitForChild | indo-kernel/src/process/mod.rs:319-348 | Wakes exactly the Blocked parents waiting for that child or any. |
| SchedKernel.Scheduler.SendSignalToFg | indo-kernel/src/process/mod.rs:359-500 | The three loops on the foreground group, equal to their specification. |
| SchedCalls.ForegroundIs | indo-kernel/src/process/mod.rs:362-385 | The foreground group is that of the lowest Running user process, failing that of the lowest Ready one, otherwise there is none. |
| SchedCalls.StruckBecomes | indo-kernel/src/process/mod.rs:387-432 | A process struck by signal 20 is stopped, a stopped one struck by 18 is Ready, and other signals that do not kill change nothing. |
| SchedKernel.Scheduler.SysKill | indo-kernel/src/syscall/mod.rs:3201-3218 | Adds the signal to the pending ones of a live target, reports exactly when it did, and touches no other slot. |
| SchedRun.RaisedNext | indo-kernel/src/syscall/mod.rs:3201-3218 | The signal sent is the next one acted on, unless it is blocked or a lower one is pending. |
| SchedCalls.RaisedIff | indo-kernel/src/syscall/mod.rs:3201-3218 | A signal from 1 to 31 becomes pending at a process that is not a zombie; in all other cases nothing changes. |
| SchedKernel.Scheduler.SysSigaction | indo-kernel/src/syscall/mod.rs:3158-3194 | Sets that one handler of the current process and no other, exactly for valid signals and user addresses. |
| SchedCalls.HandlerHolds | indo-kernel/src/syscall/mod.rs:3158-3194 | The handler set is the one looked up afterwards, for signals 1 to 31 and user addresses; every other signal keeps its handler. |
| SchedCalls.HandlerRange | indo-kernel/src/process/process.rs:336-339 | Only signals 1 to 31 have a handler, and it is the entry one below the signal. |
| SchedKernel.Scheduler.SysSetpgid | indo-kernel/src/syscall/mod.rs:3224-3246 | Sets the group of the target or of the current process, exactly when it exists, and touches no other slot. |
| SchedCalls.GroupJoined | indo-kernel/src/syscall/mod.rs:3224-3246 | Target 0 means the caller, group 0 the target's own; nothing but that group changes. |
| SchedFamily.NoCrossFamily | indo-kernel/src/process/scheduler.rs:522-536 | A zombie handed to a non-idle caller was spawned by or given to the present occupant of the slot. |
| SchedFamily.BirthKeepsIff | indo-kernel/src/syscall/mod.rs:1385-1450 | A new process, spawned or forked, keeps this if and only if nobody in the table records its slot, at the counter the slot then has, as its parent. |
| SchedFamily.SpawnLineal | indo-kernel/src/process/scheduler.rs:89-131 | spawn never meets such a leftover while its counter does not wrap; only fork can. |
| SchedFamily.StepFamily | indo-kernel/src/process/scheduler.rs:104-131 | Every step keeps it, births under exactly that condition, forks and wrapped counters included. |
| SchedFamily.RunNoCrossFamily | indo-kernel/src/process/scheduler.rs:522-603 | The same over every such run. |
| SchedFamily.UnwrappedNoCrossFamily | indo-kernel/src/process/scheduler.rs:522-603 | From boot, with spawns, deaths and reparenting in any order and without a counter wrap, no zombie crosses families; fork alone has to look for leftovers. |
| SchedFamily.BootFamily | indo-kernel/src/process/scheduler.rs:69-86 | It holds with idle alone. |
| SchedLeftover.ForkCrossesFamilies | indo-kernel/src/syscall/mod.rs:1385-1450 | A run from boot, twelve steps, after which a forked process is handed the zombie of another family. |
| SchedOwner.StepInv | indo-kernel/src/process/context_switch.rs:91-156 | Every stack and user PML4 that is not lost has exactly one holder among process and deferred slots, a process without a stack is a zombie no wake-up reaches, nobody Ready or Running waits for a child, and the current process has a stack; kept by exit, blocking calls, kill, drain, reap, every signal, and by spawn and fork whichever allocation fails. |
| SchedOwner.RunOwned | indo-kernel/src/process/context_switch.rs:686-780 | The same over every run. |
| SchedOwner.FreesOnce | indo-kernel/src/process/context_switch.rs:115-156 | Whatever a step frees was live, is freed once, is not live afterwards, and is never the current process's stack. |
| SchedOwner.LostIff | indo-kernel/src/syscall/mod.rs:1316-1449 | A step loses a stack or a PML4 if and only if it is a spawn without slot or stack, or a fork that fails after it got its PML4 or whose caller is no user process; what is lost stays lost and is never freed. |
| SchedOwner.RunLostIff | indo-kernel/src/syscall/mod.rs:1316-1449 | Over every run: nothing is lost if and only if every spawn and fork on the way ran to its end. |
| SchedAccounts.StacksConserved | indo-kernel/src/process/context_switch.rs:91-156 | Every kernel stack is accounted for: after a step it is held or lost if and only if it was, or was handed to the step, and the step did not free it. |
| SchedAccounts.SpacesConserved | indo-kernel/src/process/context_switch.rs:91-156 | The same for every user PML4. |
| SchedAccounts.StackLostIff | indo-kernel/src/syscall/mod.rs:1385-1449 | A stack is lost if and only if a fork had got it and then found no slot, or no spare stack. |
| SchedOwner.BootOwned | indo-kernel/src/process/scheduler.rs:69-86 | It holds with idle alone. |
| SchedOwner.BlockParts | indo-kernel/src/syscall/mod.rs:800-818 | Between blocking and switching away, with interrupts off, nothing is lost: the process that leaves may wait for a child, a dead one does not. |
| SchedOwner.RevivedIff | indo-kernel/src/process/mod.rs:388-448 | After a signal to the foreground group, a process that was dead or is killed by it is Ready again if and only if its wake reason names a process the signal kills, or any child while it kills one; otherwise it stays dead. |
| SchedOwner.WaitingParentSurvives | indo-kernel/src/process/mod.rs:400-448 | So a parent waiting for a child of its own group survives the signal that kills both. |
| SchedKernel.Scheduler.constructor | indo-kernel/src/process/scheduler.rs:49-86 | Boot establishes the ownership invariant. |
| SchedKernel.Scheduler.DeferFree | indo-kernel/src/process/context_switch.rs:91-112 | Appends to the eight slots, or halts when they are full. |
| SchedAccounts.ForceBuries | indo-kernel/src/process/context_switch.rs:653-780 | A forced switch away from a zombie puts its stack and PML4 last on the deferred list and takes them out of its slot; with eight entries there the machine halts; for any other process the list stays. |
| SchedAccounts.KillBuries | indo-kernel/src/process/context_switch.rs:810-868 | The same for the process a fault kills. |
| SchedKernel.Scheduler.DrainDeferredFree | indo-kernel/src/process/context_switch.rs:115-156 | Every address it frees is live at that moment; the list ends empty. |
| SchedKernel.Scheduler.Schedule | indo-kernel/src/process/context_switch.rs:462-575 | Drain, then first dispatch or tick; keeps the ownership invariant. |
| SchedAccounts.TimerIs | indo-kernel/src/process/context_switch.rs:462-575 | On the process table the timer is the first dispatch if nobody runs, otherwise the tick; the deferred list is empty afterwards. |
| SchedAccounts.ForceIsStep | indo-kernel/src/process/context_switch.rs:653-780 | On the process table a forced switch is the scheduler's, but for the stack and PML4 of the slot left. |
| SchedAccounts.KillIsStep | indo-kernel/src/process/context_switch.rs:810-868 | The same for a kill. |
| SchedAccounts.OtherIs | indo-kernel/src/process/scheduler.rs:561-581 | Reaping, births and all other steps are the scheduler's; a fork changes the table only if everything it needs is there. |
| SchedKernel.Scheduler.ScheduleForce | indo-kernel/src/process/context_switch.rs:653-780 | A zombie's resources move to the deferred list after the switch; keeps the invariant, from every state a system call can leave. |
| SchedKernel.Scheduler.BlockAndSwitch | indo-kernel/src/syscall/mod.rs:800-818 | A blocking system call, from setting the wake reason to the forced switch, keeps the invariant. |
| SchedKernel.Scheduler.KillProcess | indo-kernel/src/process/context_switch.rs:810-868 | The same for the faulting process. |
| SchedKernel.Scheduler.ReapZombie | indo-kernel/src/process/scheduler.rs:561-581 | Dropping the process frees what it still holds, once. |
| Elf.FillPage | indo-kernel/src/elf/mod.rs:313-359 | One page after copy and clear: segment bytes, then zeros, other bytes as the frame had them; slices stay in the file. It declines exactly the pages whose writes would leave the frame. |
| Elf.FramedIff | indo-kernel/src/elf/mod.rs:313-341 | Every page's writes stay in its frame if and only if the segment starts on a page boundary or lies within one page. |
| Elf.UnalignedOverruns | indo-kernel/src/elf/mod.rs:313-341 | A segment of one page that starts in the middle of one writes 2048 bytes past its first frame. |
| Elf.AddressSpace.CheckSegment | indo-kernel/src/elf/mod.rs:248-278 | Accepts exactly segments inside the file, below the user boundary and within the cumulative limit. |
| Elf.AddressSpace.LoadSegment | indo-kernel/src/elf/mod.rs:294-360 | Maps exactly the segment's pages, each showing its part, and only for a segment whose writes stay in their frames; with frames enough it stops otherwise only on a page that is mapped already. |
| Elf.AddressSpace.LoadElf | indo-kernel/src/elf/mod.rs:233-371 | For any file: on success exactly the segments' pages are mapped with their bytes and flags (byte by byte in ElfLayout.ImageByte), and the entry point lies in one of them; header errors are reported unchanged, and any other failure means a segment that is not acceptable, one whose copy runs past its frame, an entry point in no segment, a page wanted twice, or no frames. |
| Elf.LoadedFramed | indo-kernel/src/elf/mod.rs:233-371 | A file that loads has only segments whose writes stay in their frames. |
| Elf.FlatImage | indo-kernel/src/elf/mod.rs:233-371 | Every byte of every segment reads as in the flat image, below USER_SPACE_END, in at most 256 MiB of pages. |
| ElfLayout.FileRoundTrip | indo-kernel/src/elf/mod.rs:144-187 | A file header printed in the order of the System V ABI is judged by its fields: each error exactly for its field, otherwise entry point, table offset, entry size and count are read back. |
| ElfLayout.SegmentRoundTrip | indo-kernel/src/elf/mod.rs:190-204 | A program header printed in that order is read back: type, flags, offset, address, file size and memory size. |
| ElfLayout.PermittedIff | indo-kernel/src/elf/mod.rs:248-278 | A segment is let through if and only if its bytes are in the file and it ends at or below 0x7FFFFFFFF000. |
| ElfLayout.EntryIff | indo-kernel/src/elf/mod.rs:280-283 | The entry point counts as inside exactly on the pages the segment touches. |
| ElfLayout.SpanIs | indo-kernel/src/elf/mod.rs:257-274 | A segment takes the whole pages from the one of its first byte to the one of its last. |
| ElfLayout.ImageByte | indo-kernel/src/elf/mod.rs:233-371 | After loading, every address of a segment given by a printed header of type 1 reads the byte of the file, behind the file size zero, on a page that is writable and executable as its flags say. |
| ElfLayout.ImagePages | indo-kernel/src/elf/mod.rs:233-371 | Every page loading added touches a segment of type 1. |
| Initrd.HexRoundTrip | indo-kernel/src/initrd.rs:10-24 | Hex digits printed are the number parsed. |
| Initrd.EntryHead | tools/build_initrd.py:27-68 | A printed entry is parsed back wherever it stands: sizes, name, data and the next offset. |
| Initrd.LoadInitrd | indo-kernel/src/initrd.rs:82-198 | On arbitrary bytes the parser stays in bounds, ends, and delivers what the specification says. |
| Initrd.HeadBounds | indo-kernel/src/initrd.rs:29-69 | An accepted header keeps name and data inside the archive and moves forward. |
| Initrd.HeaderIff | indo-kernel/src/initrd.rs:29-69 | On any bytes a header is accepted with given sizes if and only if it carries one of the two magic numbers, both sizes as the tool prints them, a name of 1 to 4096 bytes that ends in NUL, and name and data inside the archive. |
| Initrd.Aligned | indo-kernel/src/initrd.rs:46-49 | Sizes are rounded up to the next multiple of four. |
| Utf8.ValidIff | indo-kernel/src/initrd.rs:117-126 | The UTF-8 test on names accepts exactly the encodings of sequences of Unicode scalar values (section 3 of RFC 3629). |
| Initrd.ZeroStops | indo-kernel/src/initrd.rs:92-112 | Reading ends at a zero byte. |
| Initrd.PaddingSkippedIff | indo-kernel/src/initrd.rs:99-103 | Zero padding in front of an archive is skipped if and only if there is none, or nothing would arrive anyway. |
| Initrd.PaddingLosesFile | indo-kernel/src/initrd.rs:99-103 | Four zero bytes in front of an archive with one file: the file is lost. |
| Initrd.RoundTrip | tools/build_initrd.py:17-73 | Parsing the concatenated entries and trailer delivers the same sequence of names and data, for all valid names. |
| Initrd.RoundTripAny | tools/build_initrd.py:17-73 | For any names that fit the header: exactly the items with non-UTF-8 or ".." names are skipped, and an item named like the trailer ends the archive. |
| Initrd.FilesArrive | indo-kernel/src/initrd.rs:142-170 | Files arrive one for one, in order, each with its name and all its data. |
| Initrd.DirectoryArrives | indo-kernel/src/initrd.rs:145-166 | A name that ends in a slash makes the directory before the slash; a slash alone makes nothing. |
| Initrd.ArchivesJoin | indo-kernel/src/initrd.rs:82-198 | What arrives of two lists of items is what arrives of the first and then of the second. |
| Initrd.ItemSkipped | indo-kernel/src/initrd.rs:117-141 | An item whose name is not UTF-8 or holds two dots in a row leaves no trace. |
| Initrd.TrailerEnds | indo-kernel/src/initrd.rs:128-131 | Nothing behind an item named like the trailer is read. |
| Initrd.EntryLayout | tools/build_initrd.py:27-68 | Where a printed entry has its magic, mode, links, sizes and checksum. |
| Initrd.ItemLayout | tools/build_initrd.py:27-73 | A directory is printed with mode 040755 and no data, a file with mode 0100644 and the size of its data. |

## Left out

- Vmm.Machine.MapAt: the x86_64 crate's `map_to` is not part of the repository; the model creates missing tables level by level with the flags a user mapping gets.
- CowRefinement.RunRefines: page contents are 512 words per frame rather than 4096 bytes.
- FatFile.FileHandle.Close: crash safety of the file itself is claimed when its chain could be read, every cluster taken lies in the table, no `extend_chain` failed (all so on a reliable device with room in the table), and growth starts from a one-cluster chain; `FatClose.GrownCoveredIff` and `FatClose.TornCoveredIff` say what happens otherwise. Clusters taken outside the table overwrite the second copy or data; what they destroy is not followed further.
- Vmm.Machine.ForkSpace: a fork of a space that maps a frame with count 255, where the count saturates and a rollback lowers it too far; such a fork cannot keep the counts right.
- FatFile.ClosedReopens: chains of at most 0x100001 clusters, what `read_cluster_chain` delivers.
- FatVolume.Volume.ReadFileData: sector numbers of clusters outside the table are not wrapped to 32 bits.
- SchedFamily.RunNoCrossFamily: callers other than idle.
- SchedOwner.RunOwned: a full deferred list halts the machine.
- SchedRun.BoundedWaiting: while the slot of the current process is occupied.
- SchedLaws.DiesIff: for a process that is not recorded as its own parent; so is SchedLaws.DeliveredTo.
- SchedLaws.WokenResumes: for a process on which no signal is about to act, and that the terminal's signal does not strike; SchedLaws.DeliveredTo and SchedCalls.StruckBecomes say what those do.
- Elf.AddressSpace.LoadElf: a copy that runs past its frame ends the model with an error of its own; where its bytes go is not modelled.
- Initrd.RoundTripAny: names of at most 4095 bytes and data under 4 GiB, what the header can carry; the file system's own answers to the delivered requests are not modelled.
- Reading the boot sector (`FatBpb::parse`), the FAT16 fixed root directory, creating files and directories and linking them in, and long names as a naming feature.
- `brk`, `munmap`, `exec` and the pipe bodies: system calls above the modelled routines. `brk` frees pages it may share, and is not covered by the refinement.
- Register frames, stack pointers, FPU state, CR3 and TLB mechanics; the current address space is only named.
- Stop signals beyond their effect on the state, exit statuses as waitpid reports them, file handles and pipe references of a process; the copy-out of an old signal handler.
- Device drivers, interrupt controllers, the virtual file system, the ramfs, the bootloader, logging and the in-kernel tests: they would add only easy members or need an unmodelled device.
