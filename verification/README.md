# Rust-Shyper in Dafny

Rust-Shyper is a type-1 hypervisor for AArch64. This project models the parts of it
whose correctness does not show in any single function, and proves what they are for.
Sixteen of its source files and five of the libfdt files it carries are covered, in
these groups.

**Pre-copy migration.** `Migration` is the protocol as events on page contents, dirty
bitmap, snapshot, write permissions and the stopping barrier; `MigrationDevices` is what
it needs of writes the hypervisor makes for devices; `MigrationHandlers` is the code
that performs each event on the guest's stage-2 table and bitmap, `GuestMemory` and
`GuestInit` the regions those map, `DirtyBitmap` the bitmap and the numbering of pages,
`Barrier` the counting barrier and `MigrationBarrier` what the migration needs of it,
over all migrations since boot in `MigrationHistory`. The main results are that the
destination equals the source once the last snapshot is copied, exactly when the
barrier's never-reset count starts at a multiple of the number of cores, and that the
handlers, permission walk and numbering included, are the protocol's events.

**Stage-2 page tables.** `Descriptors` and `PageTable` are the three-level tables with
their frames; `AddressSpace` gives them the meaning of a partial function from pages to
address and attributes; `Ranges` and `AccessPermission` treat whole runs, the 2 MB fast
path and the permission walk, `Translation` what the MMU sees by address,
`FrameOwnership` which frames a table holds; `Stage2Table` is the object updated in
place. The main results are refinement of every run, exactly-once reachability and exact
ownership of table frames, and the equality of the two mapping paths.

**Memory.** `VmRegions` is the guest-region allocator with its merge loop, `PageHeap`
the first-fit page heap over the `NestedBitmap`.

**Mediated block I/O.** `Tasks` and `FairQueue` are the tasks and their queue. `BlockIo`
is the protocol between core 0 and the guests' cores, one step for what a core does
between two points where another can see or change the lists. `BlockIoSafety` proves
what every interleaving keeps as long as no core wakes core 0 inside its handlers;
`BlockIoRace` that this is exactly the condition, and what happens otherwise;
`BlockIoStall` exactly when a wake-up is lost; `BlockIoProgress` that the cores come to
rest and `BlockIoCompletion` that every notified request is completed; `BlockIoRequests`
says which request each task was made from, `BlockIoData` adds the bytes and
`BlockIoDisk` what changes on the disk. `Mediator` is the code of the handlers.
`LiveUpdate` and `BlockIoUpdate` carry the lists over to a new hypervisor image.

**Assignment and copies.** `VcpuAssign` hands vCPUs to cores in any order of arrival;
`Iov` is the scatter/gather copy, `Console` the console's receive path on top of it.

**Flattened device trees** (Devicetree Specification v0.4, sections 5.2 to 5.6, version
17). `FdtTokens` reads tokens from bytes, `FdtNames` looks names up, `FdtTree` is the
tree behind them; `FdtBlob` is the blob in memory with the tag walker; `FdtWriter`,
`FdtFinish` and `FdtRun` are the sequential writer; `FdtWalk`, `FdtEdit`, `FdtProps` and
`FdtSetProp` walk and edit a finished blob, and `FdtTreeProps` says what that does to
the tree.

`Arith`, `Seqs` and `Wrappers` hold arithmetic, sequence identities and the option type.

Objects the source updates in place are classes whose methods are proved equal to
functions on values; the theorems are about those functions, over all runs. Two
functions (`FdtTokens.TokenAt`, `FdtTokens.U32`) are wrapped in a recursion so that
proofs about whole blocks treat a token or a cell as a black box; `Unseal` and `CellIs`
say that the wrapping changes nothing.

Where the code differs from what its comments or neighbours suggest, the code is
followed and the difference stated: `FairQueue::remove` keeps what it should drop
(`FairQueue.RemoveSoundIff`, `FairQueue.RemoveNotesIff`); the barrier's count is never
reset (`Barrier.SafeIffMultiple`, `MigrationBarrier.MigrationCorrectIff`); protecting
and snapshotting are not one critical section (`Migration.SplitIff`), and neither are a
device's mark and its write (`Migration.MarkThenWriteIff`) nor a fault handler's
permission and mark (`Migration.DirtyTracking`); the mediated disk does not mark what it
writes (`MigrationDevices.MigrationHeedsIff`); `unmap_2mb` over a level-3 table strands
its frame (`FrameOwnership.PagesExactIff`); the permission walk can step over pages when
it starts inside a block (`AccessPermission.AccessIff`); the executor's status does not
keep a guest's core from waking core 0 while core 0 is between two handlers' parts
(`BlockIoRace.SoundIff`, `BlockIoRace.GapOpens`), and the wait at 1024 notifications can
hold up the only core that would have it shortened (`BlockIoStall.RunStuckIff`); the
block device's range test lets a VM whose part does not start at sector 0 write behind
it (`BlockIoDisk.RangeTestIff`, `BlockIoDisk.WritesOutside`); the console marks one page
too many (`Console.MarkableIff`); the bitmap's copy may be shorter than the bitmap
(`DirtyBitmap.SnapshotFitsIff`); libfdt's unsigned room test and its 32-bit tag offset
wrap (`FdtWriter.RoomTestExact`, `FdtBlob.Blob.NextTag`).

## Model

| member | source | states |
|---|---|---|
| `Migration.MigrationCorrect` | src/kernel/hvc.rs:301-333 | from any start with the barrier's count at a multiple of the number of vCPUs and under any interleaving of guest writes, the two halves of fault handlers, devices' marks, writes of the hypervisor for devices, copies, rounds and stops, in which every such write finds its page marked or about to be by a fault handler, waiting in the snapshot or already with that content at the destination: once the last snapshot's pages are copied every destination page equals the source page, pages marked later excepted, and no vCPU can write again |
| `MigrationDevices.HeedsIff` | src/kernel/async_task.rs:431-475 | in any state of such a run: after the next event the migration can no longer go wrong by itself if and only if the event is not a write of the hypervisor to a page that is neither marked, nor about to be by a fault handler, nor waiting in the snapshot, nor already with that content at the destination; a completed disk read writes without marking |
| `MigrationDevices.MigrationHeedsIff` | src/kernel/async_task.rs:431-507 | the same over whole runs from any start with the barrier's count at a multiple of the number of vCPUs |
| `MigrationDevices.StaleEnds` | src/kernel/async_task.rs:431-475 | from any state in which a page has become stale unnoticed, some way on copies a last snapshot and leaves source and destination different there |
| `Migration.SilentWriteIff` | src/kernel/async_task.rs:431-475 | an unmarking write keeps every page accounted for exactly under that condition |
| `Migration.SilentWriteLost` | src/kernel/async_task.rs:431-475 | the failing input: in any copying state, a disk read that completes into a page that has arrived and is not marked nor about to be |
| `Migration.MarkThenWriteIff` | src/device/virtio/console.rs:289-320 | a device that marks its page and writes it later, with no lock across the two: whatever happens in between, every page is accounted for after the write if and only if the destination has the content anyway, a fault handler is about to mark the page, or no snapshot took the mark, followed by the copy of the page and no new mark |
| `Migration.DirtyTracking` | src/kernel/migrate.rs:326-360 | in every state such a run reaches after READY each page has arrived, or has its dirty bit set, or is in the snapshot still to be copied; until the stop every writable page has its bit set; both unless a fault on the page is half done |
| `Migration.StepInv` | src/kernel/hvc.rs:301-333 | every event, but for an unnoticed write of the hypervisor, keeps the tracking and the stop invariant, the barrier's own invariant included |
| `MigrationBarrier.MigrationCorrectIff` | src/lib/barrier.rs:48-62 | from any start with at least one page, every run without unnoticed writes to a copied last snapshot without later marks has destination equal to source if and only if the barrier's count, which nothing resets, is a multiple of the number of vCPUs |
| `Migration.EarlyRoundIff` | src/kernel/hvc.rs:317-333 | a MEMCPY call for another round before the snapshot is copied keeps track of every page if and only if each page still to be copied has arrived already, has been marked again or is about to be by a fault handler |
| `Migration.EarlyStopIff` | src/kernel/hvc.rs:317-333 | the same for an early call that stops the vCPUs: whatever happens up to the last snapshot, that snapshot keeps track of every page if and only if each page then still to be copied has arrived, is marked or is about to be |
| `Migration.SplitIff` | src/kernel/hvc.rs:655-661 | protecting and snapshotting are two calls that nothing makes one: whatever writes, marks, noticed writes of the hypervisor and copies come between them, and the halves of fault handlers likewise, dirty tracking survives the snapshot if and only if every page on which a write has faulted in between still has a handler that is going to mark it |
| `Migration.SplitRoundLosesWrite` | src/kernel/hvc.rs:655-661 | the failing input: from any copying state with a running vCPU, a whole fault between the two calls leaves a page writable, unmarked and changed after its copy |
| `Migration.ShortCopyIff` | src/kernel/vm.rs:158-183 | a manager's copy that does not hold the whole bitmap keeps track of every page if and only if each marked page behind its end has arrived already or is about to be marked |
| `MigrationHistory.HistoryIff` | src/lib/barrier.rs:48-62 | over all migrations since boot, one after the other: every one is correct in every way it can run if and only if the number of its vCPUs divides the number of vCPUs migrated before it |
| `MigrationHistory.CountAfter` | src/lib/barrier.rs:48-62 | a migration whose vCPUs have all stopped leaves the barrier's count higher by their number, whatever it was |
| `MigrationHistory.SameSize` | src/lib/barrier.rs:48-62 | so VMs of one size can be migrated for ever |
| `MigrationHistory.BiggerSecond` | src/lib/barrier.rs:48-62 | and a VM with more vCPUs than the first cannot be the second |
| `MigrationHandlers.Guest.constructor` | src/kernel/vm.rs:108-111 | a guest before READY, on the table and regions it is given: nothing pending, all vCPUs running, a bitmap with one bit per page |
| `MigrationHandlers.Guest.PtReadOnly` | src/kernel/vm.rs:508-526 | the loop of permission walks over the regions leaves every address of the guest translated as before, readable and not writable, and changes nothing but permission bits in the table; it is the protocol's protection |
| `MigrationHandlers.Guest.CopyMemMap` | src/kernel/vm.rs:158-183 | the manager gets exactly the marked pages that its copy has room for, all of them if the copy holds the bitmap; the bitmap is then clear |
| `MigrationHandlers.Guest.MigrateMemory` | src/kernel/hvc.rs:655-661 | protect, then snapshot; every address of the guest is then readable and not writable |
| `MigrationHandlers.Guest.OnReady` | src/kernel/hvc.rs:301-316 | protect, snapshot, mark everything dirty: the READY event if the copy holds the bitmap; every address of the guest is then readable and not writable |
| `MigrationHandlers.Guest.OnMemcpy` | src/kernel/hvc.rs:317-333 | in any copying state: the stop of all vCPUs exactly if fewer than 0x2000 bits of the bitmap are set, else protect and snapshot, after which every address of the guest is readable and not writable; with the last snapshot copied and a copy that holds the bitmap, the protocol's event |
| `MigrationHandlers.Guest.OnFault` | src/kernel/migrate.rs:326-333 | the first of the fault handler's two locked calls: the leaf of the faulting page, 4 KB or 2 MB, can be read and written, its address and other attributes as before, and no other page changes; it is the first half of the fault |
| `MigrationHandlers.Guest.OnLog` | src/kernel/migrate.rs:338-355 | the second: exactly the leaf's pages are marked, the other half; panics exactly when a 2 MB leaf does not start on a bitmap word |
| `MigrationHandlers.Guest.OnWriteFault` | src/kernel/migrate.rs:326-360 | the two with nothing in between; for a page outside the guest's regions no page of the guest becomes writable, and unless its leaf points into the guest's regions it panics with nothing marked |
| `MigrationHandlers.Guest.OnDeviceMark` | src/kernel/vm.rs:128-146 | is the mark of the address's page; panics exactly outside the regions |
| `MigrationHandlers.Guest.OnHostCopy` | src/kernel/async_task.rs:431-475 | is the write of the bytes, which marks nothing |
| `MigrationHandlers.Guest.OnDeviceWrite` | src/kernel/vm.rs:128-146 | the two with nothing in between: a run of the protocol that is noticed |
| `GuestMemory.RegionWalk` | src/kernel/vm.rs:508-526 | the walk over one region of a laid-out guest gives that region's pages the permission and no other page, whatever 2 MB leaves it has |
| `GuestMemory.AllProtected` | src/kernel/vm.rs:508-526 | after the walk over all regions no page number is writable |
| `GuestMemory.TargetNumber` | src/kernel/migrate.rs:338-355 | the address a guest page is mapped to has that page's number, whichever region it is in |
| `GuestMemory.FaultLeaf` | src/kernel/migrate.rs:326-360 | the address and length the walk returns are those of the leaf; the leaf's pages are a run of numbers from that address's number on, and they are what becomes writable |
| `GuestMemory.WalkStaysLaid` | src/kernel/vm.rs:496-506 | a permission walk on any page leaves every region mapped as it was |
| `GuestInit.InitMemory` | src/vmm/init.rs:39-77 | mapping the regions of an empty table one after the other, page by page, keeps the table valid and, with frames enough, translates every address of every region to the region, with the attributes it was called with, and lays the regions out as the handlers rely on |
| `MigrationHandlers.Guest.OnStop` | src/kernel/hvc.rs:571-612 | takes a ticket at the barrier: the vCPU's last event |
| `MigrationHandlers.Guest.Spin` | src/lib/barrier.rs:48-56 | lets the core through exactly when the count has reached its ticket |
| `MigrationHandlers.Guest.OnFinish` | src/kernel/migrate.rs:301-324 | is the last snapshot, if the copy holds the bitmap |
| `DirtyBitmap.FaultBit` | src/kernel/migrate.rs:338-355 | the write-fault path numbers a page by the pages of earlier regions plus its place in its own; fails exactly outside all regions |
| `DirtyBitmap.DeviceMark` | src/kernel/vm.rs:128-146 | the device path uses the same numbering, sets that bit and no other, and with a bit for every page fails exactly outside all regions |
| `DirtyBitmap.NumberingInjective` | src/kernel/vm.rs:128-146 | a page has one number below the page count, and two addresses share a number exactly when they share a page |
| `DirtyBitmap.SnapshotFitsIff` | src/kernel/vm.rs:158-183 | the frames reserved for the bitmap's copy hold the whole bitmap exactly when the page count, rounded up to words of 64, is a multiple of 32768 |
| `DirtyBitmap.FlexBitmap.Fill` | src/lib/bitmap.rs:145-155 | `init_dirty` and `clear` set every bit, those past `len` included |
| `DirtyBitmap.FlexBitmap.Get` | src/lib/bitmap.rs:157-163 | reads the bit; the bound it enforces is `len` itself, not below it |
| `DirtyBitmap.FlexBitmap.Set` | src/lib/bitmap.rs:165-174 | changes one bit and no other, or nothing where the code panics |
| `DirtyBitmap.FlexBitmap.SetBits` | src/lib/bitmap.rs:176-194 | sets exactly the bits of the run, when it is one bit or whole words; otherwise nothing |
| `DirtyBitmap.FlexBitmap.Sum` | src/lib/bitmap.rs:204-210 | the number of set bits, those past the length in the last word included |
| `Barrier.BarrierSafe` | src/lib/barrier.rs:37-62 | with n cores, any interleaving and a count at a multiple of n at the start, no core has crossed k times before every core has arrived k times |
| `Barrier.BarrierProgress` | src/lib/barrier.rs:37-62 | once all have arrived as often as a waiter, it can leave; some step is always possible |
| `Barrier.SafeIffMultiple` | src/lib/barrier.rs:48-62 | the barrier separates its cores in every run if and only if the count is a multiple of n at the start |
| `Barrier.NextMultiple` | src/lib/util.rs:27-29 | a ticket waits for the next multiple of n above the count it was taken at |
| `Descriptors.DecodeEncode` | src/arch/aarch64/page_table.rs:135-172 | a descriptor's address, attributes and kind are read back from its 64-bit word, which is zero only for the empty entry |
| `Descriptors.WithApOk` | src/arch/aarch64/page_table.rs:191-238 | changing the permission field keeps every other attribute bit and can be undone |
| `Descriptors.ApGrants` | src/arch/aarch64/page_table.rs:52-55 | bit 6 of the new attributes lets the guest read and bit 7 lets it write, as the permission says |
| `Translation.MmuSees` | src/arch/aarch64/page_table.rs:135-172 | the MMU's own walk over the descriptors, with the architecture's type codes, yields for every address below 2^39 what the model says of its page |
| `PageTable.MapPageOk` | src/arch/aarch64/page_table.rs:281-330 | keeps the ownership invariant; sets the one page if it was empty and its tables could be had, never overwrites, and changes no other translation |
| `PageTable.MapBlockOk` | src/arch/aarch64/page_table.rs:240-262 | the same for a 2 MB block, which is written only over an empty level-2 entry |
| `PageTable.UnmapPageOk` | src/arch/aarch64/page_table.rs:332-357 | removes the one page and no other translation; a frame that leaves `pages` has all 512 entries zero and no table points to it |
| `PageTable.UnmapBlockOk` | src/arch/aarch64/page_table.rs:264-279 | removes the block's or the table's 512 pages; a frame that leaves `pages` is empty and unreachable; frames stay in `pages` without a path exactly when it cuts off a level-3 table |
| `PageTable.ReleaseOk` | src/arch/aarch64/page_table.rs:332-357 | dropping an unlinked frame moves it from `pages` to the heap and keeps everything else |
| `AddressSpace.IndexSplit` | src/arch/aarch64/page_table.rs:90-100 | below 2^39 the three indices are the digits of the page number in base 512 |
| `AddressSpace.CallRefines` | src/arch/aarch64/page_table.rs:191-357 | each map, unmap, 2 MB or permission call has on the partial function from pages to address and attributes exactly its abstract effect, keeps the ownership invariant and conserves the frames |
| `AddressSpace.SetPageApOk` | src/arch/aarch64/page_table.rs:191-238 | a permission change keeps the output address, the other attributes and every other leaf |
| `Ranges.RunRefines` | src/arch/aarch64/page_table.rs:191-357 | any sequence of calls acts on the translations as the same sequence of abstract updates; the frames held without a path are those cut off on the way |
| `FrameOwnership.RunReleases` | src/arch/aarch64/page_table.rs:191-357 | over any run, a frame that was in `pages` and no longer is has all its entries zero and no path from the directory |
| `FrameOwnership.PagesExactIff` | src/arch/aarch64/page_table.rs:264-279 | from a table that holds exactly the frames it reaches, any run of legal calls ends in one if and only if no `unmap_2mb` in it met a level-3 table |
| `FrameOwnership.FreshPagesExactIff` | src/arch/aarch64/page_table.rs:179-185 | the same from a new guest's table: `pages` is exactly the reachable tables if and only if the run cut none off |
| `FrameOwnership.MapThenUnmapFrames` | src/arch/aarch64/page_table.rs:415-431 | mapping a free range and unmapping it with the same arguments leaves frames that nothing reaches behind if and only if address and length are 2 MB aligned, blocks were asked for, the physical address is not aligned, the range is not empty and the heap could supply the first page's tables |
| `Ranges.MapRangeView` | src/arch/aarch64/page_table.rs:377-388 | `map_range` over a free range maps each page whose tables could be had, at consecutive addresses, and nothing else |
| `Ranges.UnmapRangeView` | src/arch/aarch64/page_table.rs:390-395 | `unmap_range` removes the pages of its range and no others |
| `Ranges.MapBlocksSpace` | src/arch/aarch64/page_table.rs:359-366 | `map_range_2mb` over a free range maps each block whose table could be had |
| `Ranges.UnmapBlocksSpace` | src/arch/aarch64/page_table.rs:368-375 | `unmap_range_2mb` removes the blocks of its range and nothing else |
| `Ranges.BlockPathRefinesPagePath` | src/arch/aarch64/page_table.rs:415-422 | on a free aligned range the 2 MB form gives every page the address and attributes the 4 KB loop gives it |
| `Translation.MapRangeTranslates` | src/arch/aarch64/page_table.rs:415-422 | with frames enough for its tables, mapping a free range makes the MMU translate every address of the range to the same offset from the physical address, with these attributes, whichever granularity is chosen, and changes no address on another page |
| `Translation.UnmapRangeTranslates` | src/arch/aarch64/page_table.rs:424-431 | after unmapping a range no address of it is translated, and no address on another page is affected |
| `Ranges.MapThenUnmap` | src/arch/aarch64/page_table.rs:415-431 | unmapping a freshly mapped free range with the same address, length and flag restores the earlier translations, also when a misaligned physical address forced 4 KB pages |
| `Ranges.FramesSuffice` | src/arch/aarch64/page_table.rs:281-313 | 2n free frames are enough for n calls of `map` |
| `AccessPermission.AccessCovers` | src/arch/aarch64/page_table.rs:191-238 | over a fully mapped range with which the 2 MB stride keeps in step, every page of the range gets the permission, with address and other attributes kept, and only pages sharing a block with the range change besides |
| `AccessPermission.AccessOne` | src/arch/aarch64/page_table.rs:191-238 | on one page: the leaf's permission changes, and its address and size are returned |
| `AccessPermission.AccessMisses` | src/arch/aarch64/page_table.rs:191-238 | over a mapped range with which it does not keep in step, some page of the range is left as it was |
| `AccessPermission.AccessIff` | src/arch/aarch64/page_table.rs:191-238 | so a mapped range without the permission gets it everywhere if and only if it starts on a block's edge or outside blocks, or stays in one block, or consists of blocks and ends no earlier in its last than it starts in its first |
| `Stage2Table.Table.constructor` | src/arch/aarch64/page_table.rs:179-185 | a new table is valid and translates nothing |
| `Stage2Table.Table.Map` | src/arch/aarch64/page_table.rs:281-330 | in place: the specification above, invariant kept |
| `Stage2Table.Table.Map2Mb` | src/arch/aarch64/page_table.rs:240-262 | in place: the specification above, invariant kept |
| `Stage2Table.Table.Unmap` | src/arch/aarch64/page_table.rs:332-357 | in place, with the search for empty tables |
| `Stage2Table.Table.Unmap2Mb` | src/arch/aarch64/page_table.rs:264-279 | in place |
| `Stage2Table.Table.EmptyPage` | src/arch/aarch64/page_table.rs:434-441 | true exactly when all 512 entries are zero |
| `Stage2Table.Table.MapRange4K` | src/arch/aarch64/page_table.rs:377-388 | the loop is the run of its calls |
| `Stage2Table.Table.MapRange2Mb` | src/arch/aarch64/page_table.rs:359-366 | the loop is the run of its calls |
| `Stage2Table.Table.UnmapRange4K` | src/arch/aarch64/page_table.rs:390-395 | the loop is the run of its calls |
| `Stage2Table.Table.UnmapRange2Mb` | src/arch/aarch64/page_table.rs:368-375 | the loop is the run of its calls |
| `Stage2Table.Table.PtMapRange` | src/arch/aarch64/page_table.rs:415-422 | takes the 2 MB form exactly when address, length and physical address are aligned and blocks are asked for |
| `Stage2Table.Table.PtUnmapRange` | src/arch/aarch64/page_table.rs:424-431 | decides without the physical address |
| `Stage2Table.Table.SetAccess` | src/arch/aarch64/page_table.rs:191-238 | the walk, with the address and size it returns |
| `VmRegions.AllocOk` | src/kernel/mem.rs:151-173 | a request succeeds exactly when enough contiguous pages are free; it takes exactly those pages and keeps the partition |
| `VmRegions.FreeOk` | src/kernel/mem.rs:175-212 | releasing a used region frees exactly its pages; the merge loop ends with no two free regions touching |
| `VmRegions.RunGood` | src/kernel/mem.rs:151-212 | after any run the regions are a disjoint partition of the boot memory, each wholly free or wholly used, no two free ones touching |
| `VmRegions.ReleasingAllRestoresBoot` | src/kernel/mem.rs:175-212 | once everything is released the region set is the boot set |
| `VmRegions.Canonical` | src/kernel/mem.rs:175-212 | free regions that do not touch are determined by the memory they cover |
| `VmRegions.VmRegion.RegionAlloc` | src/kernel/mem.rs:151-173 | in place: first region with enough free pages, split at its front; exactly the bytes returned stop being free, and none are returned exactly when no such run of bytes is free |
| `VmRegions.VmRegion.RegionFree` | src/kernel/mem.rs:175-212 | in place, with the merge loop; exactly the bytes released become free |
| `VmRegions.VmRegion.Merge` | src/kernel/mem.rs:188-211 | the loop joins touching free regions until none is left |
| `NestedBitmap.GetPut` | src/lib/bitmap.rs:69-130 | set and clear change one bit of the nested map and leave every other as it was |
| `NestedBitmap.GetZero` | src/lib/bitmap.rs:63-75 | a default map has no bit set |
| `NestedBitmap.PickIsDiv` | src/lib/bitmap.rs:77-92 | the part and the place in it are quotient and remainder by the part's capacity |
| `PageHeap.HeapSafe` | src/kernel/mem_region.rs:68-145 | in every run of reservations, allocations and releases of live blocks `free` equals the clear pages plus the reserved ones, covers every clear run, and live blocks share no page |
| `PageHeap.StepInv` | src/kernel/mem_region.rs:68-145 | each operation keeps the count and the marks of every live block |
| `PageHeap.ReservedForGood` | src/kernel/mem_region.rs:68-76 | a reserved page is never handed out |
| `PageHeap.HeapRegion.FirstFit` | src/kernel/mem_region.rs:78-97 | the run returned is in range and clear, the leftmost unless the shortcut at `last` hits; none is returned if and only if no clear run of that length, at least one page, exists |
| `PageHeap.HeapRegion.ReservePages` | src/kernel/mem_region.rs:68-76 | marks the pages, `free` untouched |
| `PageHeap.HeapRegion.AllocatePages` | src/kernel/mem_region.rs:99-123 | takes a clear run, for one page that at `last` if it is clear and else the leftmost, lowers `free` by its length without underflow and moves `last` behind it, or to 0 at the end; fails with nothing changed exactly when there is none |
| `PageHeap.HeapRegion.FreeBlock` | src/kernel/mem_region.rs:125-145 | clears exactly the block's pages, raises `free` by their number and moves `last` to the first |
| `PageHeap.HeapRegion.HeapAlloc` | src/kernel/mem.rs:125-136 | the test against `free` turns away nothing that would fit; run, `free` and `last` as in `AllocatePages` |
| `BlockIoRace.RunSoundIff` | src/kernel/async_task.rs:341-429 | with every handler split where another core can step in: at no point of a run can the cores reach a panic by themselves if and only if no guest's notification decided to wake core 0 while core 0 was inside its handlers and no report came with nothing queued |
| `BlockIoRace.SoundIff` | src/kernel/async_task.rs:341-373 | the same for one step: in any state of such a run the condition, which is about the state before the step, decides whether a schedule of the cores can panic afterwards |
| `BlockIoRace.GapOpens` | src/device/virtio/mediated.rs:219-234 | from every idle state one request outside a VM's part of the disk leads, by steps that are all in order, to core 0 between `finish_async_task(true)` and `async_task_exe()` with both lists empty, where the next notification of any VM can end in a panic |
| `BlockIoStall.StuckIff` | src/kernel/async_task.rs:355-372 | in any state of a sound run a step leaves a core waiting for a list that only core 0 shortens if and only if one was, or the step is a notification that fills the list to 1024 while another core has yet to wake core 0 |
| `BlockIoStall.RunStuckIff` | src/kernel/async_task.rs:355-372 | over whole runs: a wake-up is stuck at the end if and only if some notification on the way did that |
| `BlockIoStall.StuckForever` | src/kernel/async_task.rs:355-372 | a stuck wake-up stays stuck, and no request is completed any more, in every sound continuation |
| `BlockIoStall.LeftIff` | src/kernel/async_task.rs:341-429 | when no core can go on and nothing is with the service VM, a notification is left if and only if a wake-up is stuck |
| `BlockIoStall.CrowdedOut` | src/kernel/async_task.rs:355-372 | the failing input: from every idle state, requests followed by 1024 notifications before the core that should wake core 0 looks at the list are never completed |
| `BlockIoSafety.CompletionsMatchRequests` | src/kernel/async_task.rs:431-507 | in every run that keeps to that condition, steps of all cores interleaved in any way, each VM's used-ring entries are, in order, a prefix of its accepted requests; each completion wrote its own request's head and length; at most one request is with the service VM; nothing panics |
| `BlockIoStall.QuiescentMeansDone` | src/kernel/async_task.rs:341-429 | in every such run without a crowding notification, when no core can go on and nothing is with the service VM, every accepted request of a VM that has notified is completed |
| `BlockIoSafety.StepInv` | src/kernel/async_task.rs:341-507 | every step of every core keeps: tasks and used-info in step and in order, only the front task started, the ledger of requests, a notification for every waiting request, and where each core may be |
| `BlockIoSafety.RunInv` | src/kernel/async_task.rs:341-507 | so every state of such a run has it |
| `BlockIoSafety.FinishPaired` | src/kernel/async_task.rs:477-507 | the record at the head of the VM's used-info list is the finished task's own |
| `BlockIoSafety.PairedPush` | src/kernel/async_task.rs:477-490 | a task and its record, pushed together, keep each VM's records the ones its queued tasks need, in order |
| `BlockIoSafety.ReportCompletes` | src/device/virtio/mediated.rs:187-207 | two steps of core 0 after a report the request in flight is completed with its own record |
| `BlockIoProgress.CoresRest` | src/kernel/async_task.rs:375-429 | from any state, sound or not, every schedule of the cores ends within a bound computed from the rings, the lists and where the cores are |
| `BlockIoCompletion.ServiceEnds` | src/kernel/async_task.rs:375-429 | from any state of a sound run every schedule of the cores and of reports from the service VM ends within a bound computed from that state |
| `BlockIoCompletion.AllComplete` | src/kernel/async_task.rs:341-507 | wherever such a schedule ends, from a state that is not stuck, every accepted request of a VM that has notified is completed, each with its own record and in order |
| `BlockIoCompletion.Completes` | src/kernel/async_task.rs:341-507 | and from every state there is such a schedule that ends |
| `BlockIoProgress.SettleInv` | src/kernel/async_task.rs:375-429 | a handler on core 0 that is left alone ends with the service VM running and the invariant kept |
| `BlockIoData.TransfersTrue` | src/kernel/async_task.rs:294-326 | in every sound run, with one cache for all requests and guests storing what they like, whatever was transferred is what the guest's own request in the ring asks for: a read got what the disk held from its VM's start plus its sector on, for its bytes / 512 sectors, and a write left there what its buffers held when it was handed out and changed nothing elsewhere |
| `BlockIoData.Delivers` | src/kernel/async_task.rs:444-475 | the step that completes a request tells the guest of that request; a read's own buffers then hold what the disk holds at its sectors, and a write's sectors what its buffers held when it was handed out |
| `BlockIoData.HandsOut` | src/kernel/async_task.rs:303-318 | the step that hands out a write takes what its own buffers hold, for its own length |
| `BlockIoRequests.StepTracked` | src/device/virtio/blk.rs:369-470 | every sound step keeps each VM's queued tasks those of the requests taken from its ring, in order: a read is a read and a write a write, of the sectors that the request says, counted from the VM's start |
| `BlockIoDisk.OnlyWritesChange` | src/device/virtio/blk.rs:374-385 | in every sound run a sector differs from what the disk held at the start only if some write a VM asked for covers it; if every write that was carried out ends within its VM's part, only sectors of VMs' parts differ |
| `BlockIoDisk.StaysIff` | src/device/virtio/blk.rs:374-385 | a request stays in its VM's part exactly if its sector plus its length is no more than the part's size, or it is for no sector |
| `BlockIoDisk.RangeTestIff` | src/device/virtio/blk.rs:374-385 | the range test lets only writes inside the VM's part through if and only if the part starts at sector 0: it compares the request's own sector with the part's end on the disk |
| `BlockIoDisk.WritesOutside` | src/device/virtio/blk.rs:374-385 | the failing input: a VM whose part starts at another sector writes one sector at start + size - 1; from every idle state a sound run carries it out, at a sector behind the part |
| `BlockIoData.DataStepInv` | src/kernel/async_task.rs:294-326 | every sound step, a guest's store and the service VM's turn keep: the cache holds what the request in flight needs |
| `BlockIoUpdate.LiveUpdateInv` | src/kernel/live_update.rs:398-501 | the pairing, the ledger, the waiting notifications and the request in flight survive the live update, at whatever step it comes |
| `Mediator.Device.TakeRequest` | src/device/virtio/blk.rs:369-491 | one request: a read or write within the range test becomes a task of that direction for bytes / 512 sectors from start plus its sector on, a get-id a complete task, each with its used-info record; a flush panics; anything else is dropped |
| `Mediator.Device.HandleRing` | src/device/virtio/blk.rs:525-678 | takes what the ring holds at the start, request by request, as core 0's steps do |
| `Mediator.Device.FinishNote` | src/kernel/async_task.rs:431-441 | removes the front notification, and panics when there is none |
| `Mediator.Device.FinishTask` | src/kernel/async_task.rs:431-507 | pops the front task and writes its VM's next record to the used ring |
| `Mediator.Device.StartTask` | src/kernel/async_task.rs:243-261 | hands the front task to the service VM and marks it running |
| `Mediator.Device.ExecuteOnService` | src/kernel/async_task.rs:375-429 | the executor's loop makes exactly core 0's steps until it returns |
| `Mediator.Device.ExecuteOnGuest` | src/kernel/async_task.rs:375-429 | one turn on a guest's core, with the interrupt it sends |
| `Mediator.TurnIsRun` | src/kernel/async_task.rs:375-429 | that turn is a sequence of the guest core's steps |
| `Mediator.Device.Notified` | src/kernel/async_task.rs:341-354 | queues a pending notification of the VM's, with its priority and device, and decides to execute exactly if both lists were empty and the executor was not scheduled, under both locks |
| `Mediator.Device.OnIpi` | src/device/virtio/mediated.rs:219-234 | not interrupted, the handler ends where core 0's steps from the interrupt on end |
| `Mediator.Device.OnComplete` | src/device/virtio/mediated.rs:187-207 | not interrupted, the same from a report on; a report with nothing queued panics |
| `FairQueue.RunWF` | src/kernel/async_task.rs:107-161 | over any run the rotation has no duplicates and equals the map's keys, `len` is the sum of the non-empty sub-queues, and each sub-queue holds its owner's tasks |
| `FairQueue.Fifo` | src/kernel/async_task.rs:130-161 | per owner, what was popped followed by what is queued is what was there followed by what was pushed |
| `FairQueue.Latency` | src/kernel/async_task.rs:144-161 | with at most n owners the task at place j of the owner at place i of the rotation is pop number j * n + i at the latest, counted from 0, so within (j + 1) * n pops |
| `FairQueue.PushKeepsFront` | src/kernel/async_task.rs:130-142 | a push never changes the front |
| `FairQueue.RemoveSoundIff` | src/kernel/async_task.rs:173-182 | as written, `remove` keeps the invariant if and only if the owner has no tasks; otherwise the rotation keeps the removed owner alone and the front is lost |
| `FairQueue.RemoveAsMeantOk` | src/kernel/async_task.rs:173-182 | as meant, it drops the owner and keeps the others' tasks and order |
| `FairQueue.RemoveNotesIff` | src/kernel/async_task.rs:520-530 | the same filter on the list of notifications keeps the removed VM's: the others keep theirs if and only if they have none, and the result is the one meant only for the empty list |
| `FairQueue.TaskQueue.PushBack` | src/kernel/async_task.rs:130-142 | in place |
| `FairQueue.TaskQueue.PopFront` | src/kernel/async_task.rs:144-161 | in place; fails exactly where there is no front |
| `FairQueue.TaskQueue.SetFrontTask` | src/kernel/async_task.rs:329-339 | changes the front task only |
| `FairQueue.TaskQueue.IsEmpty` | src/kernel/async_task.rs:122-124 | true exactly when nothing can be popped |
| `LiveUpdate.UpdateQueue` | src/kernel/live_update.rs:444-501 | draining a well-formed queue into an empty one gives the same rotation and the same per-owner order; each task has the priority and the device its VM has after the update, and its data, VM, state and request as before; it succeeds exactly when every task is a read or write of a VM that is there and has a block device |
| `LiveUpdate.UpdateNotes` | src/kernel/live_update.rs:413-442 | the notifications in the same order, each with its VM's priority and device after the update and otherwise as before; exactly when every one is a notification of a VM that is there and has a block device |
| `LiveUpdate.TransferStep` | src/kernel/live_update.rs:444-501 | half way through, the new rotation followed by the owners still to come is the old rotation |
| `LiveUpdate.TransferEnd` | src/kernel/live_update.rs:444-501 | when the source is empty the copy is complete |
| `VcpuAssign.AnyOrder` | src/kernel/vm.rs:392-425 | for every order in which the cores call once each, cores and vCPUs 0 to N - 1 end up in a bijection, `ncpu` equals the allocation bitmap, and vCPU 0 is on the configured master if it is allocated, else on the last allocated caller |
| `VcpuAssign.CallInv` | src/kernel/vm.rs:392-425 | a call hands out a vCPU nobody has, 0 being kept for the master |
| `VcpuAssign.IdsInverse` | src/kernel/vm.rs:694-714 | after the assignment the id translations are inverse |
| `VcpuAssign.MasksInverse` | src/kernel/vm.rs:716-736 | and so are the mask translations, as far as both lengths reach |
| `VcpuAssign.Vm.Select` | src/kernel/vm.rs:392-425 | in place, with the master core recorded |
| `VcpuAssign.Vm.Assign` | src/vmm/init.rs:486-527 | an allocated core always gets a vCPU; the VM is ready once all have theirs |
| `VcpuAssign.Vm.PcpuidToVcpuid` | src/kernel/vm.rs:706-714 | the first vCPU on that core |
| `VcpuAssign.Vm.VcpuToPcpuMask` | src/kernel/vm.rs:716-725 | the cores of the vCPUs in the mask |
| `VcpuAssign.Vm.PcpuToVcpuMask` | src/kernel/vm.rs:727-736 | the vCPUs of the cores in the mask |
| `Iov.WriteThroughIov` | src/device/virtio/iov.rs:110-178 | for any request it ends; the bytes of the concatenated destination are the source's, in order, as far as request and both lists reach, no other byte changes, and the rest is returned; `remain` underflows if and only if the request ends before both lists do and at no buffer's edge |
| `Iov.WholeSource` | src/device/virtio/console.rs:311-320 | a request for all of the source ends at an edge, so the copy never underflows on it |
| `Iov.TurnEnds` | src/device/virtio/iov.rs:128-172 | each turn ends at the next buffer edge of either list |
| `Iov.ToBuf` | src/device/virtio/iov.rs:46-60 | the first bytes of the list, in order, to one buffer |
| `Iov.FromBuf` | src/device/virtio/iov.rs:62-76 | one buffer's bytes to the list, in order |
| `Console.ConsoleRecv` | src/device/virtio/console.rs:275-331 | the message arrives whole, at pages that were marked dirty, if and only if every descriptor it needs translates and can be marked, they hold enough bytes and both used-ring pages are the VM's; which descriptor stops it says whether it is turned down or panics, with nothing written; a panic for the used ring comes after the bytes |
| `Console.Gather` | src/device/virtio/console.rs:278-309 | takes descriptors until they hold enough, marking every page they touch; stops at the first that does not translate, or panics at the first that cannot be marked |
| `Console.MarkPages` | src/device/virtio/console.rs:289-297 | marks the pages from the buffer's first to the one its end address is on, and no others; panics exactly when one of them is outside the VM's regions |
| `Console.MarkableIff` | src/device/virtio/console.rs:289-297 | a buffer inside a region can be marked if and only if it ends before the region does, or another of the VM's regions starts where this one ends |
| `FdtBlob.Blob.NextTag` | libfdt-binding/fdt.c:158-209 | finds the token at an offset and the next aligned offset, with the error codes; where a length cell carries the 32-bit offset past its end, it accepts the wrapped offset instead |
| `FdtBlob.Walk` | libfdt-binding/fdt.c:158-209 | inside a block that tokenises no offset wraps: the tag and the next token's offset |
| `FdtTokens.WireIs` | libfdt-binding/fdt.c:158-209 | what is taken for a token at an offset is exactly what section 5.4.1 of the Devicetree Specification lays out there: big-endian cells 1, 2, 3, 4 and 9, a name up to its NUL, a property's length and name offset before its value |
| `FdtTokens.TokensJoin` | libfdt-binding/fdt.c:158-209 | blocks side by side tokenise to the tokens of both |
| `FdtTokens.TokensMove` | libfdt-binding/fdt.c:158-209 | equal bytes hold equal tokens, wherever they are |
| `FdtTokens.TokensCut` | libfdt-binding/fdt.c:158-209 | a block can be cut at any token |
| `FdtTokens.NodeBytes` | libfdt-binding/fdt_sw.c:219-234 | a node header reads back as one token wherever it is stored, whatever its padding holds |
| `FdtTokens.PropertyBytes` | libfdt-binding/fdt_sw.c:293-335 | so does a property |
| `FdtNames.FindString` | libfdt-binding/fdt.c:298-307 | the first place of the string, possibly in a longer one's tail; none exactly if it occurs nowhere |
| `FdtNames.NamesStable` | libfdt-binding/fdt_sw.c:250-265 | strings put in front leave every name counted from the end as it was |
| `FdtWriter.BeginNode` | libfdt-binding/fdt_sw.c:219-234 | the draft says one node start more, exactly when it fits |
| `FdtWriter.EndNode` | libfdt-binding/fdt_sw.c:236-248 | the draft says one node end more, exactly when it fits |
| `FdtWriter.Property` | libfdt-binding/fdt_sw.c:276-335 | exactly when the name, unless it is there, and the property fit, the draft says one property more, under its own name also when the name is shared with another's tail; without space contents and sizes are as before; where strings and name are longer than the buffer the unsigned test lets it overrun; otherwise the two blocks never meet |
| `FdtWriter.AddString` | libfdt-binding/fdt_sw.c:250-265 | puts the string in front of the strings block exactly when it fits, says no space exactly when it does not, and overruns exactly when strings and string are longer than the buffer |
| `FdtWriter.RoomTestExact` | libfdt-binding/fdt_sw.c:250-265 | the unsigned room test is right if and only if the strings and the new name are no longer than the buffer |
| `FdtFinish.Finish` | libfdt-binding/fdt_sw.c:337-384 | the finished blob says exactly what the draft said and the end mark, names included; fails only without space for the mark |
| `FdtFinish.FixNames` | libfdt-binding/fdt_sw.c:358-373 | every name offset is rebased in place and the walk ends at the end mark |
| `FdtFinish.RebaseNames` | libfdt-binding/fdt_sw.c:358-373 | rebased offsets name the same strings |
| `FdtRun.WriteAll` | libfdt-binding/fdt_sw.c:219-335 | any sequence of calls is what the draft says if and only if the bytes it needs, shared names counted once, are no more than the room there is |
| `FdtRun.WriteTree` | libfdt-binding/fdt_sw.c:219-384 | the calls for any tree and `fdt_finish` leave a blob whose walk yields that tree, nodes, names and values, if and only if the bytes needed and the end mark fit |
| `FdtRun.Create` | libfdt-binding/fdt_sw.c:109-216 | an empty draft, exactly when header and reserve-map end fit |
| `FdtTree.ReadFlat` | libfdt-binding/fdt.c:158-209 | parsing the items of a tree gives the tree back |
| `FdtTree.DescribesOne` | libfdt-binding/fdt.c:158-209 | a block describes at most one tree |
| `FdtTree.SubtreeFound` | libfdt-binding/fdt_wip.c:73-81 | for any node of a well-nested block, NOP tags or not, the depth count ends at its own matching close |
| `FdtTree.SubtreeGone` | libfdt-binding/fdt_rw.c:382-394 | cutting that range out, or writing NOP tags over it, describes the same tree: the original without exactly that node |
| `FdtWalk.NextNode` | libfdt-binding/fdt.c:233-270 | on to the next node start, or past the close that ends the walk, with the depth |
| `FdtWalk.NodeEndOffset` | libfdt-binding/fdt_wip.c:73-81 | the offset behind the matching close of the node, or an error if there is none |
| `FdtEdit.Splice` | libfdt-binding/fdt_rw.c:54-68 | moves everything behind the gap, or fails with nothing moved |
| `FdtEdit.SpliceStruct` | libfdt-binding/fdt_rw.c:83-95 | the blocks behind move along |
| `FdtEdit.EditOk` | libfdt-binding/fdt_rw.c:54-95 | replacing tokens k to m leaves every item before and after them, names included, and every offset up to the edit |
| `FdtEdit.DelNode` | libfdt-binding/fdt_rw.c:382-394 | removes exactly the items of the node's subtree, or fails with nothing changed; offsets in front of it stay good |
| `FdtEdit.NopNode` | libfdt-binding/fdt_wip.c:83-94 | replaces exactly those items by NOP tags |
| `FdtEdit.DelNodeOfTree` | libfdt-binding/fdt_rw.c:382-394 | on a blob that describes a tree it succeeds exactly at a node, and the blob then describes the tree without exactly that node |
| `FdtEdit.NopNodeOfTree` | libfdt-binding/fdt_wip.c:83-94 | so does the overwriting with NOP tags, and describes the same tree |
| `FdtEdit.NopRegion` | libfdt-binding/fdt_wip.c:51-57 | NOP tags over the region rounded up to words, nothing else |
| `FdtProps.GetProperty` | libfdt-binding/fdt_ro.c:394-423 | the first property of that name in the node's own run of properties, or the error |
| `FdtProps.NextProp` | libfdt-binding/fdt_ro.c:201-223 | the next property, over NOP tags |
| `FdtProps.ResizeProperty` | libfdt-binding/fdt_rw.c:184-200 | the property holds the new value, every other item is as before, and so are the sizes and the offsets up to it; without space nothing changes |
| `FdtProps.DelProp` | libfdt-binding/fdt_rw.c:318-331 | removes exactly that property |
| `FdtProps.NopProperty` | libfdt-binding/fdt_wip.c:59-71 | replaces exactly that property by NOP tags |
| `FdtProps.RemovedSame` | libfdt-binding/fdt_wip.c:59-71 | either way the rest reads the same |
| `FdtSetProp.SetProp` | libfdt-binding/fdt_rw.c:258-289 | succeeds exactly when the node's properties can be walked and the new value, with a new name where one is needed, fits; then the first property of that name has the value, or a new one is the node's first, and nothing else differs; total size, structure offset and the node's own offset stay; on failure the items and all block sizes are as before |
| `FdtSetProp.SetAndGet` | libfdt-binding/fdt_rw.c:276-289 | `fdt_setprop` followed by `fdt_getprop` at the same node offset finds the bytes given |
| `FdtTreeProps.SetPropOfTree` | libfdt-binding/fdt_rw.c:258-289 | on a blob that describes a tree it succeeds exactly at a node where the value fits, and the blob then describes the tree with that node's property set and nothing else changed |
| `FdtTreeProps.DelPropOfTree` | libfdt-binding/fdt_rw.c:318-331 | on such a blob it succeeds exactly if the node has the property, and the blob then describes the tree without it |
| `FdtTreeProps.NopPropertyOfTree` | libfdt-binding/fdt_wip.c:59-71 | so does the overwriting with NOP tags, and describes the same tree |
| `FdtTreeProps.RebodyOk` | libfdt-binding/fdt_rw.c:54-95 | replacing the contents of the n-th node leaves everything around it as it was |
| `FdtSetProp.AddProperty` | libfdt-binding/fdt_rw.c:202-233 | adds the property and, if need be, its name; the string is taken back when the structure block has no space |
| `FdtSetProp.FindAddString` | libfdt-binding/fdt_rw.c:127-153 | the offset of the name, added behind the others if it is not there |
| `FdtSetProp.SetReadsBack` | libfdt-binding/fdt_rw.c:276-289 | after it the lookup finds the property with the bytes given |
| `FdtSetProp.SetElsewhere` | libfdt-binding/fdt_rw.c:258-289 | all items but the one set are the old ones, in order |
| `FdtSetProp.NamesExtend` | libfdt-binding/fdt_rw.c:127-153 | a string put behind the others changes no name |

## Left out

Assumptions about the surroundings:

- Migration: a handler is one step where it is not split (`SplitIff`, `MarkThenWriteIff` and the two halves of a fault say what the splits do), the TLB is coherent, the manager finishes a snapshot before it asks for the next round, and no migrated vCPU runs on core 0; page contents are one number per page.
- Migration: the vCPU register and interrupt-controller state that is saved beside the memory.
- MigrationHandlers: no two regions overlap, in the guest's view or in memory, and a 2 MB leaf does not reach past its region.
- MigrationHandlers.Guest.CopyMemMap: what the copy overwrites behind its frames, where it does not fit, is not modelled.
- BlockIoData: contents are one number per sector; the service VM carries out each request once before it reports it; buffers named by different descriptor heads do not overlap; the name that a get-id request writes is not modelled.
- GuestInit.InitMemory: the regions are given as allocated, and mapped page by page as for every VM but VM 0, which is not migrated; which pages stay unmapped when table frames run out, where `map` prints and returns, is left to `Ranges.MapRangeView`.
- Barrier: sequentially consistent steps stand for the atomic counter; relaxed memory ordering is not modelled.
- PageTable: addresses below 2^39 and page-aligned arguments; single-page frames; the descriptor word is its address, attribute and kind fields.
- FrameOwnership.MapThenUnmapFrames: frames that stay reachable are not counted: a `map` that gets its level-2 table and no level-3 table leaves the first in `pages`.
- PageTable.MapPageOk: requires that the page is not inside a 2 MB block, where the code would use the block's memory as a table and nothing can be said of the memory it then writes; likewise PageTable.UnmapPageOk.
- Stage2Table.Table.Map: requires the same; likewise Unmap, MapRange4K, UnmapRange4K and the 4 KB branches of PtMapRange and PtUnmapRange.
- BlockIo: core 0 runs the service VM and nothing else, so its handlers do not interrupt each other; lock acquisition is not modelled, a locked section is one step. The two halves of a request, task and record, are one step of core 0, and so is its turn on a block task, because no other core looks at those in a run that keeps to the condition; outside it a guest's core takes its turn on a block task in one step.
- BlockIo: requests in a ring are well-formed descriptor chains, and guests send no flush inside the disk, which the code does not implement; `update_used_ring` and `notify` are events; a report on a device that no VM owns is not modelled.
- BlockIoStall.QuiescentMeansDone: says nothing of requests whose VM has not notified yet.
- BlockIoStall.StuckIff: a core that waits at the full list may notify again in the model, which the code does not let it; the list then only gets longer.
- Mediator.Device.Notified: ends at the decision; the wait at 1024 notifications is the condition of the next step.
- Mediator.Device.OnIpi: not interrupted by other cores; what they can do in between is the subject of `BlockIoSafety` and `BlockIoRace`.
- Mediator.Device.OnComplete: likewise.
- Mediator.Device.ExecuteOnService: likewise.
- LiveUpdate: the two task lists; the status, the used-info records and the other globals are copied field by field.
- VmRegions.AllocOk: sizes are positive page multiples, as the callers' are; likewise VmRegions.VmRegion.RegionAlloc.
- VmRegions.FreeOk: blocks are released with the size they were given, as the callers do; likewise VmRegions.VmRegion.RegionFree.
- PageHeap.HeapRegion.ReservePages: reserves clear pages, as boot does; the source panics on others.
- PageHeap.HeapRegion.FreeBlock: frees live blocks only, as `PageFrame`'s drop does.
- PageHeap: the heap has at least one page and at most 64K; the machine word of a bitmap is its bits; zeroing the pages is not modelled.
- VcpuAssign.Vm.Assign: each core calls at most once, which `append_vcpu` enforces by a panic; bitmaps are sets of bits.
- Iov.ToBuf: the buffers do not overlap; likewise Iov.FromBuf.
- Iov.WriteThroughIov: pointers are at least 0x1000, below which the code panics while tracing is on, as it is by default; the same holds of the copies in `BlockIo` and `Console`. Destination buffers overlap neither each other nor the source, and all lie in one memory; after an underflow nothing is said, since the code would go on with a wrapped count.
- Console.ConsoleRecv: the descriptor chain is given as the list of its translated buffers, 0 where translation fails; a cyclic chain is not modelled, nor are the used ring's contents and the notification.
- FdtBlob: header fields are fields of the object, not bytes of the buffer; the probes of magic number and version are not modelled.
- FdtWriter.Property: an overrun, where the unsigned room test wraps, is reported and not carried out; what the code would then write is not modelled.
- FdtWalk.NextNode: offsets are those of tokens; an aligned offset into the middle of a value is not modelled. Likewise FdtWalk.NodeEndOffset and the members of FdtEdit, FdtProps and FdtSetProp that take an offset.
- FdtSetProp.SetProp: requires that every property's name resolves, as in a valid blob; a dangling name could come to resolve when a string is added.

Not modelled, because it would add only members of the same kind or code without
visible state:

- libfdt: `fdt_add_subnode_namelen`, `fdt_set_name`, `fdt_appendprop`, reserve-map entries, `fdt_resize`, `fdt_open_into`, `fdt_pack`, paths, parents and phandles, overlays, versions before 17.
- `VirtioIov::get_ptr`, and the network device's copies.
- `map_migrate_vm_mem`, a loop of the range operations modelled here.
- The virtual interrupt controller, virtqueues, the scheduler, SMMU, timers and boot code; board and device-tree constant tables; logging.
