# Paging over RDMA on Dune: models and proofs

This project models the memory machinery of the repository in Dafny and proves
what it promises. Four pieces of state have to agree: a guest page table, a
reference-counted pool of pages, a kernel table (the EPT) that shadows the
process's own page table, and a copy of pages on another machine that is reached
over an RDMA connection. Everything below is stated for all inputs, all runs or
all reachable states. `dafny verify dfyconfig.toml` checks the whole project.

How the modules are arranged:

- `Radix`: 512-way tables in a flat heap of frames, as both the guest table and
  the EPT use them; where a walk stops (`Stop`), what decides a page (`Leaf`),
  what translates it (`Translate`), and the invariant `Tree`, by which no two
  entries lead to one table. `Addresses` is the arithmetic of table indices.
  `Accesses` is what the processor itself writes into entries.
- `PagePool`: the free list and reference counts of `libdune/page.c`.
- `Callbacks`: entries of the guest table, and the callbacks that walks are called with.
- `GuestVm`: what the routines of `libdune/vm.c` do, as functions. The walk is
  specified by `Flat`, one slot after the other, each found by its own descent.
  `GuestWalker` is the source's recursive walk on a heap that it updates in place,
  proved to do the same; `GuestCalls` are the entry points.
  `VmInvariants`, `WalkRanges`, `WalkTheorems`, `WalkNone`, `CloneTheorems` say what
  calls do to translations; `WalkRoom` and `CloneRoom` say exactly when they succeed;
  `Conservation`, `PoolRuns`, `RoundTrip`, `VmRuns` count references; `CowFault`,
  `CowTheorems` are the default page-fault handler.
- `EptTables`, `EptWalk`, `EptDevice`, `EptNotifiers`, `EptRuns`: `kern/ept.c`; `EptFlush`:
  its callbacks together with the flushes of `kern/vmx.c`.
- `Windows`, `TwoStage`: the address windows, and the two translations composed;
  `SetupRuns`: the set-up of a whole process from its start, and a clone of it.
- `Migration`: vCPUs moving between CPUs (`kern/vmx.c`), as a state machine;
  `MigrationRuns`: what the steps of a run say of EPT entries and cached translations;
  `VcpuAbort`: the error path of creating a vCPU.
- `RdmaChannel`: the transfer protocol of `rdma-common.c`, as a state machine;
  `ChannelRuns` and `LostCompletions`: runs of it, and completions that wake nobody;
  `RemoteMemory`: its calls; `RemotePages` and `Paging`: `page.c` on top of them.
- `SthreadWalks`, `Sthread`, `Arena`: two clients, the sthread checkpoint, with its own
  callbacks run by the page walk, and the sandbox's arena.

An entry is a frame number and the set of its other bits, so a permission set and
an entry's flags are sets of bit numbers. Frames, pages and addresses are numbers;
64-bit wrap-around is written out where the code can meet it. Kernel memory, the
host's `mmap` and page tables, the NIC and the peer are parameters or steps that may
happen at any time.

What the code does not do, found while proving what it does:

- The default page-fault handler asserts that the fault is not a protection fault.
  A write to a present copy-on-write page is one, so in the default build the
  handler never breaks copy-on-write (`CheckedNeverCopies`); `HandledIff` says
  exactly when it returns. What it would do is proved for every build.
- `ept_check_page_accessed` computes `flush & accessed` with 1 and 0x100, which is
  always 0: the accessed bit is never cleared (`FlushMaskZero`).
- `invalidate_range_end` does nothing, so a fault between `range_start` and the
  host's change brings back a mapping that nobody removes, exactly when the fault succeeds
  (`RangeGap`); from a new EPT with four pages it does (`GapFromStart`).
- Where the windows are out of order, some guest-physical pages are the image of no page:
  they can be faulted in, and no notice ever reaches them (`OverlapStale`).
- A write fault on a PFN mapping is granted without asking whether it may be
  written (`PfnWriteGranted`).
- `ept_lookup_gpa` stops with -EINVAL at every big entry on its way, so 4 KB
  invalidation leaves huge mappings alone (`InvalidatePage`, `HugeStays`).
- If `mmu_notifier_register` fails, `vmx_create_vcpu` frees a vCPU that is still some
  CPU's `local_vcpu` and whose VMCS is active (`AbortExact`, `DanglingLocal`); this is
  so for the first vCPU of every run (`DanglingHappens`).
- If the peer's DONE is polled before the completion of a read, a write or our own DONE,
  nobody is woken by it (`CompletionPosted`). `ReturnsIff` says exactly which calls in
  progress can still return; of the others, none ever does, and the connection is never cut
  (`DoomedForever`). Every connection has such runs (`ReadHangs`, `WriteHangs`, `DoneHangs`).
- Cloning copies a big entry into a 4 KB slot (`CloneExact`). The set-up's own direct map
  of the pool is made of big entries: a clone has one page in 512 of it, and takes no
  reference for those that the pool does not reach yet, so counts go wrong
  (`SetupThenClone`).
- The window translations are inverses both ways exactly if the windows lie in the order
  in which the code tests for them (`AllInvertIff`); shrinking the sandbox's break can
  fail for want of room (`ShrinkFails`).

## Model

| member | source | states |
|---|---|---|
| Radix.HardwareAgrees | dune/libdune/vm.c:90-94 | because every link is made with P, W and U, the processor grants a page exactly what the one entry that translates it grants |
| Accesses.AccessAlike | dune/libdune/mmu-x86.h:44-50 | when the processor follows links and uses an entry it sets accessed and dirty bits only: no page of any root gets another frame, level or permission, and no table moves |
| Accesses.AccessMarks | dune/libdune/mmu-x86.h:49-50 | the entry of a page that is accessed has its accessed bit from then on, its dirty bit if the access was a write, and no other bit that it did not have |
| Radix.WriteLeaf | dune/libdune/vm.c:59-82 | storing an entry that is no link decides the pages of its slot under its own root, and changes no other page of any root |
| Radix.LinkLeaf | dune/libdune/vm.c:84-95 | linking an empty table where nothing was present changes no translation of any root |
| Radix.NextPrefix | dune/libdune/vm.c:53-56 | the addresses of one entry are an interval, and the next entry begins right behind it |
| Addresses.PdxIsIndex | dune/libdune/mmu-x86.h:16-18 | PDX of an address is the digit that the page number has at that level |
| Addresses.BaseIsPrefix | dune/libdune/vm.c:47-50 | the base address a table's walk computes is the first address of the table, with the bits above bit 47 kept |
| Addresses.EntryRange | dune/libdune/vm.c:97-98 | the start and end handed to the recursive call cover exactly the entry's share of the range |
| PagePool.AllocOk | dune/libdune/page.c:80-99 | an allocation hands out a page whose count was 0, leaves it at 1, changes no other count, and the free list stays exactly the pages with count 0 |
| PagePool.AllocRoom | dune/libdune/page.c:45-99 | allocation succeeds exactly if a page is free or the host backs a whole block more, and uses up one page of that room |
| PagePool.PutOk | dune/libdune/dune.h:160-169 | dropping a reference lowers that count only, and frees the page exactly when it was the last |
| PagePool.PageAllocator.constructor | dune/libdune/page.c:114-140 | after page_init the free list holds every page once and every count is 0 |
| PagePool.PageAllocator.Extend | dune/libdune/page.c:55-58 | the block of new pages is put on the list in front of the old list, with counts 0 |
| PagePool.PageAllocator.Grow | dune/libdune/page.c:45-64 | growing appends one block or, if the host refuses, changes nothing |
| PagePool.PageAllocator.AllocPage | dune/libdune/page.c:80-99 | in place, what `Alloc` specifies, including the failure |
| PagePool.PageAllocator.GetPage | dune/libdune/dune.h:150-158 | one more reference on one page |
| PagePool.PageAllocator.PutPage | dune/libdune/page.c:101-107 | one reference less, and the page on the list if it was the last |
| GuestWalker.AddressSpace.Lookup | dune/libdune/vm.c:120-172 | returns the slot that a plain descent finds, creating tables on the way if asked; -ENOENT, or the end of the process, exactly when that does |
| GuestWalker.AddressSpace.Call | dune/libdune/vm.c:202-362 | the five callbacks in place: the entry stored, the references taken and dropped, the failure of map_pages |
| GuestWalker.AddressSpace.WalkRound | dune/libdune/vm.c:53-109 | one round of the loop leaves exactly the rest of the range to be walked, or ends the walk as specified |
| GuestWalker.AddressSpace.PageWalk | dune/libdune/vm.c:42-112 | the recursive walk terminates and does what visiting the slots of the range one by one in ascending order does, whatever the callback and the create argument |
| VmInvariants.LocateExtends | dune/libdune/vm.c:133-168 | a descent keeps the tree of tables sound, moves no table and breaks no link |
| VmInvariants.LocateStop | dune/libdune/vm.c:133-171 | the slot a descent returns is where the processor's walk of the resulting tables stops |
| VmInvariants.LocateLeaf | dune/libdune/vm.c:133-171 | a descent that creates tables changes no translation under any root |
| VmInvariants.VisitLeaf | dune/libdune/vm.c:59-82 | visiting a slot decides the pages of that slot and no others |
| WalkRanges.Bridge | dune/libdune/vm.c:102-107 | walking one entry's share of a range from the table below it is the same as walking it from the table itself |
| WalkTheorems.MapPhysMaps | dune/libdune/vm.c:243-279 | map_phys over a range without larger entries gives every page of the range the entry of its unit, and changes no other page of any root |
| WalkTheorems.MapPhysSends | dune/libdune/vm.c:174-279 | over an aligned range of 4 KB, 2 MB or 1 GB units, address x goes to pa + (x - va) with exactly the bits of get_pte_perm |
| WalkTheorems.PermBits | dune/libdune/vm.c:174-200 | each permission sets its own entry bit and no other does, except that either of the first two user permissions also sets the third user bit |
| WalkTheorems.LeafGrants | dune/libdune/vm.c:174-200 | an entry with the bits of get_pte_perm makes the processor grant exactly what was asked: nothing without read, and else write, user and execute as in the permissions |
| WalkNone.NoneWalk | dune/libdune/vm.c:202-235 | mprotect and unmap never fail; they rewrite exactly the entries that lie, at least in part, in the range, and leave all other pages of all roots alone |
| WalkNone.WalkComplete | dune/libdune/vm.c:53-111 | a walk that creates nothing calls back exactly once for every occupied slot of the range, in ascending order, as the tables were when it started |
| WalkNone.WalkCreates | dune/libdune/vm.c:53-111 | a walk that creates 4 KB slots calls back exactly once for every page of the range, in ascending order |
| WalkRoom.LocateRoom | dune/libdune/vm.c:133-168 | a creating descent succeeds exactly if the pool has room for the tables missing on its way; if none is missing it changes nothing |
| WalkRoom.FlatRoom | dune/libdune/vm.c:84-95 | a creating walk succeeds exactly if there is room for the missing tables, each counted once, and the pages it maps; and it takes just those |
| WalkRoom.CreatesElse | dune/libdune/vm.c:84-109 | a creating walk, whether it succeeds or fails, changes no page outside its range and none of another root |
| CloneTheorems.LookupIsHardware | dune/libdune/vm.c:120-172 | lookup returns the entry at which the processor's walk ends, changes no translation, and looking again finds the same and changes nothing |
| CloneTheorems.CloneMaps | dune/libdune/vm.c:311-349 | under the new root the first page of every entry has that entry as a 4 KB entry, and every other root is as before |
| CloneTheorems.CloneApart | dune/libdune/vm.c:332-349 | the clone shares no table with another root: no table that a walk from the one gets to, at any level and for any page, is one that a walk from the other gets to |
| CloneTheorems.CloneExact | dune/libdune/vm.c:311-349 | the clone translates every page as the original does if and only if the original has no present big entry |
| CloneRoom.CloneRoomIff | dune/libdune/vm.c:311-349 | clone succeeds exactly if there is room for a root and one table for each 2 MB, 1 GB and 512 GB in which an entry begins |
| Conservation.LocateConserves | dune/libdune/vm.c:133-168 | tables created by a lookup keep every count equal to the entries and links that name the page |
| Conservation.TouchConserves | dune/libdune/vm.c:202-362 | one callback of mprotect, map_phys, map_pages or unmap keeps the counts right |
| PoolRuns.CloneConserves | dune/libdune/vm.c:311-327 | the clone callback takes a reference for exactly the entry it makes |
| PoolRuns.FlatConserves | dune/libdune/vm.c:42-112 | whole walks keep the counts right, with entries of all three sizes, also when they stop for want of memory |
| VmRuns.NewRootConserves | dune/libdune/vm.c:337-338 | a new root is counted once, by its handle |
| VmRuns.PerformConserves | dune/libdune/vm.c:120-439 | each call keeps the invariant of tables and pool |
| VmRuns.RunConserves | dune/libdune/page.c:80-107 | over every run of lookups, walks of every size, clones, faults and accesses of the processor each pool page's count is the number of 4 KB entries, links and roots that name it, and the free list holds exactly the pages with count 0, once each |
| RoundTrip.MapPagesGives | dune/libdune/vm.c:281-309 | map_pages gives every page of an empty range a free frame of its own and counts one reference for each and for each new table |
| RoundTrip.FreeDrops | dune/libdune/vm.c:351-362 | unmap drops exactly one reference of each frame in its range |
| RoundTrip.MapUnmapRestores | dune/libdune/vm.c:281-396 | map_pages on an empty range, then unmap: every translation is as before, every data page is free again, and only intermediate tables remain |
| CowTheorems.CowKeepsBytes | dune/libdune/vm.c:412-438 | breaking copy-on-write keeps the page's bytes, makes it writable and not copy-on-write, and reuses the frame in place exactly when one reference is counted; then no other entry names it |
| CowTheorems.CowIsolates | dune/libdune/vm.c:412-438 | every other page of every root keeps its entry and its bytes |
| CowTheorems.CheckedNeverCopies | dune/libdune/vm.c:404-407 | with assertions compiled in, whenever the handler returns from a fault that the processor reported, the page was not present and nothing has been copied |
| CowTheorems.HandledIff | dune/libdune/vm.c:399-439 | for a present 4 KB page, exactly when the handler returns |
| GuestCalls.VmMprotect | dune/libdune/vm.c:213-235 | -EINVAL exactly for write without read, no access without read; otherwise exactly the entries in the range are rewritten, in no other root, and the processor grants there what was asked; every entry keeps its frame and its size, and no page is taken, given back or written |
| GuestCalls.VmUnmap | dune/libdune/vm.c:388-396 | exactly the entries in the range are gone, and under no other root, such as a clone, does anything change; counts stay right where big entries of the range name no pool page; the contents of memory stay |
| GuestCalls.VmMapPhys | dune/libdune/vm.c:251-279 | returns 0 exactly if the pool has room for the missing tables, and -ENOMEM otherwise; then the range is mapped as asked, the processor grants there exactly the permissions asked for, and nothing else changes; the tables stay sound either way, and the counts right, for 2 MB and 1 GB entries where they replace no table |
| GuestCalls.VmMapPages | dune/libdune/vm.c:294-309 | -EINVAL for permissions without read; otherwise 0 exactly if there is room for the missing tables and one page for each page of the range, and then every page of the range has an entry as asked and no other page changes; where no old entry of the range named a page of the pool, every page has a fresh frame, and the counts are right also on -ENOMEM |
| GuestCalls.VmClone | dune/libdune/vm.c:332-349 | the new root's translations, all other roots and all data unchanged; the process dies exactly if there is too little room |
| GuestCalls.CloneNeverFails | dune/libdune/vm.c:343-346 | the error path of clone is dead |
| CowTheorems.OthersKept | dune/libdune/vm.c:412-439 | with any error code and in any build: when the handler returns from a fault that is no write, or where the entry that the processor comes to has no copy-on-write bit, everything is as it was |
| CowTheorems.CowEntry | dune/libdune/vm.c:412-438 | a handled write to a copy-on-write entry of any size, present or not, takes its copy-on-write bit and gives it the write bit, and changes no other bit of it and no other entry of any root |
| CowTheorems.CowCopies | dune/libdune/vm.c:412-434 | the copy that is made holds what the processor saw at the faulting page, also within a big entry; an entry whose frame is kept copies nothing |
| GuestCalls.PageFault | dune/libdune/vm.c:399-439 | the handler in place does what its specification says, for every error code and build; it leaves alone what it has no business with |
| EptTables.DropLeaf | dune/kern/ept.c:225-241 | a leaf that is disposed of holds a reference that is there to drop, unless it is a PFN mapping |
| EptTables.DropTable | dune/kern/ept.c:317-318 | a table page that is freed is not free already, and all that remains is still an unaliased tree |
| EptTables.StoreEntry | dune/kern/ept.c:477 | a stored leaf takes over a reference that has been taken for it |
| EptTables.OnlyRoot | dune/kern/ept.c:248-283 | when all entries of the root have been dealt with no other table is left and no reference is held for an entry |
| EptWalk.SeekOk | dune/kern/ept.c:170-207 | lookup goes where the hardware's walk goes, changes no translation and no reference, and stops with -EINVAL exactly at a big entry |
| EptWalk.SeekExact | dune/kern/ept.c:170-207 | -EINVAL exactly if a big entry lies above the slot, -ENOMEM exactly if the kernel has fewer pages than tables are missing, and as many pages used as tables made |
| EptDevice.EptMap.constructor | dune/kern/ept.c:723-734 | a new EPT translates nothing and holds nothing |
| EptDevice.EptMap.LookupGpa | dune/kern/ept.c:170-207 | the loop in place finds what the descent finds, with the same error |
| EptDevice.EptMap.FreeEptPage | dune/kern/ept.c:225-241 | one reference less, none for a PFN mapping; requires that the reference is held |
| EptDevice.EptMap.ClearEpte | dune/kern/ept.c:290-299 | the entry is gone and its reference dropped; returns whether there was one |
| EptDevice.EptMap.FreeTable | dune/kern/ept.c:248-283 | the nested loops: every leaf below a table is dropped once, every table below freed once, tables elsewhere are untouched |
| EptDevice.EptMap.ClearTable | dune/kern/ept.c:301-354 | making room for a huge page disposes of all that was below the entry and nothing else |
| EptDevice.EptMap.FreeEpt | dune/kern/ept.c:243-288 | at the end no reference is held and every page is back with the kernel, once |
| EptDevice.EptMap.SetPfnmap | dune/kern/ept.c:356-411 | returns the host's error, or exactly what the lookup returns; on success exactly the page asked for is remapped, without a reference; on error no translation and no reference changes; the entry is readable, writable exactly for a write, not executable, and uncachable |
| EptDevice.EptMap.SetEpte | dune/kern/ept.c:413-482 | the return value in every case; on success exactly the 4 KB, 2 MB or 1 GB unit is remapped to the page or the head of its compound page; on error the reference taken is given back; bit by bit, at every size: readable and executable, writable exactly for a write, write-back, and marked accessed and dirty beforehand as the fault asks |
| EptDevice.EptMap.SetSlot | dune/kern/ept.c:446-477 | the reference of the page, or the one moved to the head, becomes the entry's; what was in the slot is disposed of |
| EptNotifiers.InvalidatePage | dune/kern/ept.c:512-539 | exactly the page's 4 KB entry goes; an entry for a huge page stays; addresses outside the windows change nothing |
| EptNotifiers.HugeStays | dune/kern/ept.c:413-539 | from a new EPT with three pages, after a fault on a 2 MB page of the host anywhere in the windows, the address is still mapped when its page has been invalidated |
| EptNotifiers.InvalidateRange | dune/kern/ept.c:626-653 | exactly the 4 KB entries of the pages whose host address is in the range go; a flush is asked for if and only if the walk for one of them gets to a level-0 table, and so whenever a translation has changed |
| EptNotifiers.FlushMaskZero | dune/kern/ept.c:598-604 | the condition under which the accessed bit would be cleared is false in every case |
| EptNotifiers.CheckPageAccessed | dune/kern/ept.c:578-608 | reports the A bit of the page's 4 KB entry and changes nothing, even when asked to clear it |
| EptNotifiers.CheckPageMapped | dune/kern/ept.c:549-567 | true exactly if the walk for the page gets to a level-0 table, so also for an empty slot in one, and false under a huge page |
| EptNotifiers.ClearFlushYoung | dune/kern/ept.c:680-692 | with accessed bits, the page's bit, and nothing changes; without, the page's entry goes, and the answer is whether there was one |
| EptNotifiers.TestYoung | dune/kern/ept.c:694-706 | the page's accessed bit, or without accessed bits whether its walk gets to a level-0 table; nothing changes |
| EptRuns.DoFault | dune/kern/ept.c:484-502 | succeeds exactly if the address has a host page, the host allows the access and the missing tables can be had; keeps the shadow in agreement with the process page table; on success the page is translated as that table says, with the access that faulted permitted |
| EptRuns.PfnWriteGranted | dune/kern/ept.c:390-400 | from a new EPT with four pages, a write fault on any PFN mapping ends with the page mapped writable, whatever the host says of it |
| EptRuns.SilentChange | dune/kern/ept.c:655-660 | a change of the process page table that is not announced is harmless if and only if the EPT does not translate the image of the page |
| EptRuns.RunShadow | dune/kern/ept.c:7-10 | over every run of faults, accesses of the guest and announced changes, in every layout, the EPT maps each page that is an image under hva_to_gpa to the frame of the process page table, writably only if that is writable or a PFN mapping; with the windows in order it does so for all pages |
| EptRuns.OverlapPage | dune/kern/ept.c:119-165 | with the windows out of order, some page of guest-physical memory has a host page and is not the image of it |
| EptRuns.OverlapStale | dune/kern/ept.c:512-539 | ... and from a new EPT with four pages, a fault on it and the announced change of its host page leave it as it was |
| EptRuns.RangeGap | dune/kern/ept.c:626-660 | for every range: a fault between range_start and the host's change succeeds exactly as it would have without the invalidation; and the host's change leaves the EPT in disagreement if and only if that fault succeeded |
| EptRuns.GapFromStart | dune/kern/ept.c:626-660 | for every page that the host lets through: from a new EPT with four pages, fault, range_start and fault succeed, and the host's change leaves the EPT in disagreement |
| EptRuns.RunToEnd | dune/kern/ept.c:243-288 | over every run of faults of any kind and invalidations, ended by vmx_free_ept, every reference taken is dropped and the kernel has all its pages back, each once |
| EptRuns.RunStored | dune/kern/ept.c:356-482 | over every run of faults of any kind, invalidations and accesses, with pages of any size: whatever the EPT translates was brought by a fault of the run, for the page that the host answered it with, and may be written if and only if that fault was a write |
| EptFlush.RangeSync | dune/kern/ept.c:626-653 | the translations after a range invalidation are those that the step of unmapping in the migration protocol leaves, with a flush of the whole EPT pending; where no flush is asked for, none has changed |
| EptFlush.PageSync | dune/kern/ept.c:512-539 | the same for one page, with a flush of its address |
| Windows.GpaInverts | dune/kern/ept.c:119-165 | gpa_to_hva inverts every address hva_to_gpa accepts, and dune_va_to_pa agrees with it |
| Windows.HvaInverts | dune/kern/ept.c:119-165 | for one guest-physical address, exactly when hva_to_gpa inverts gpa_to_hva |
| Windows.AllInvertIff | dune/kern/core.c:103-106 | they are inverse for all guest-physical addresses if and only if the windows lie in order without overlap |
| Windows.LayoutOf | dune/kern/core.c:103-106 | the map window and the stack window end, 2 MB aligned, just over the process's mmap base and its stack's start |
| TwoStage.PlanInverts | dune/libdune/dune.h:178-198 | every guest-physical image of the set-up leads back to the address it came from |
| TwoStage.KernelRoomy | dune/kern/core.c:103-106 | the layout that the kernel hands out meets what the set-up needs, on machines with 34 to 48 physical address bits whose mmap area and stack lie high enough |
| TwoStage.SetupMappingsFull | dune/libdune/entry.c:462-493 | after the four mapping calls every address of the low 4 GB, the mappings and the stack, and of the pool's 4 GB, sent through the guest walk and then gpa_to_hva, is itself again, even where the high windows overlap; the processor lets the process read, write and execute there in user mode, and lets only the kernel write the pool, executing nothing; nothing else is mapped; the only error is -ENOMEM, with room for 3091 pages there is none, and the reference counts stay right |
| SetupRuns.NewProcessReady | dune/libdune/entry.c:462-470 | a process as page_init leaves it meets what the set-up needs |
| SetupRuns.SetupThenClone | dune/libdune/vm.c:311-349 | for a new process with room for 8231 pages: set-up and clone both succeed, the counts are right in between, the clone has exactly one page in 512 of the pool's direct map, and if the pool then falls short of the last 2 MB that the host can back, the counts are wrong afterwards |
| TwoStage.GuestSeesProcess | dune/kern/ept.c:7-10 | where the set-up maps an address to itself and the EPT agrees with the process page table at its page, the guest sees at the address the frame that the process has there |
| Migration.FirstZero | dune/kern/vmx.c:1004-1008 | the vpid found is the least unused one |
| Migration.InvStep | dune/kern/vmx.c:614-658 | every step of every vCPU, interrupt and EPT change keeps the invariant |
| Migration.RunSafe | dune/kern/vmx.c:614-709 | in every run a VMCS is active on at most one CPU, local_vcpu names a vCPU that is there with its VMCS current, `launched` fits the hardware before each entry, a stale translation on the vCPU's CPU has a flush due or under way, and vpids differ |
| Migration.LocalTruth | dune/kern/vmx.c:630-655 | a thread that may use its VMCS finds it current, and the helper's BUG_ON never strikes |
| MigrationRuns.RunEntries | dune/kern/ept.c:290-330 | in every run the EPT of a vCPU has for each address what the last step to map it, unmap it or create the vCPU says |
| MigrationRuns.RunFresh | dune/kern/vmx.c:673-709 | in every run what is cached on a vCPU's CPU is what the steps so far have mapped, unless a flush of it is pending |
| MigrationRuns.UnmapPends | dune/kern/ept.c:512-539 | taking an entry out, alone or with a range, makes a flush of it pending |
| MigrationRuns.RunUnmapped | dune/kern/vmx.c:673-709 | after the last unmapping of an address the guest cannot touch it, and it is cached on the vCPU's CPU only while a flush of it is pending |
| MigrationRuns.UntouchedSince | dune/kern/ept.c:512-539 | ... nor does the guest touch it in any continuation before it is mapped again |
| MigrationRuns.RunTouches | dune/kern/ept.c:484-502 | what a touch makes the CPU cache is what the steps so far have mapped |
| MigrationRuns.RunVpids | dune/kern/vmx.c:1004-1026 | in every run the vpids in use are 0 and those of the living vCPUs |
| MigrationRuns.StaleHappens | dune/kern/vmx.c:614-709 | translations do get stale: on every CPU and for every address there is a run from the start after which one is cached for an entry that is gone |
| MigrationRuns.FlushDone | dune/kern/vmx.c:673-709 | a flush that is due for a running guest can be carried out; then its request is gone and what it covers is not cached there |
| MigrationRuns.MoveDone | dune/kern/vmx.c:614-658 | an idle vCPU can be brought to any free CPU once its own takes interrupts; then its VMCS is active and current on the new CPU only, where nothing is cached for it |
| MigrationRuns.DestroyDone | dune/kern/vmx.c:1081-1092 | destroying a vCPU leaves nothing of it on a CPU or in local_vcpu, and frees its vpid |
| VcpuAbort.AbortExact | dune/kern/vmx.c:1064-1074 | giving up on a new vCPU keeps the invariant if and only if it has never been on a CPU |
| VcpuAbort.DanglingLocal | dune/kern/vmx.c:630-655 | after a late failure the next vCPU at the same address is taken for loaded |
| VcpuAbort.DanglingHappens | dune/kern/vmx.c:1054-1074 | from the initial state, creating a vCPU up to vmx_put_cpu and then failing breaks the invariant, and leads there |
| RdmaChannel.InvStep | rdma-common.c:180-222 | every step of client, NIC, peer and poller keeps the invariant of the connection |
| RdmaChannel.ReadsArePlain | rdma-common.c:253-308 | in every run an offset read returns what a plain byte array gives after all the offset writes called before it |
| RdmaChannel.StageStill | rdma-common.c:303-306 | the staging buffer of writes never changes while a write is posted |
| RdmaChannel.QueuesFit | rdma-common.c:138-150 | at most two send requests and one receive are posted and unpolled, so the queues never overflow |
| RdmaChannel.ConnectionOrder | rdma-common.c:189-221 | the peer's region is set once and before the client starts; the connection is cut at most once, and only after both DONEs |
| LostCompletions.CompletionPosted | rdma-common.c:200-215 | the completion of a read, write or DONE posts its semaphore if and only if the peer's DONE has not been polled first |
| LostCompletions.ReturnsIff | rdma-common.c:253-317 | a read, write or DONE in progress can return in some continuation if and only if its semaphore is up, or the peer's DONE has not been polled and the completion is queued before it or the request is posted with no DONE queued yet |
| LostCompletions.DoomedForever | rdma-common.c:253-317 | otherwise it waits in every continuation of the run, and the connection is not cut |
| LostCompletions.DoneHangs | rdma-common.c:310-317 | every connection has a run from its start in which _rdma_done loses its completion and can never return |
| LostCompletions.ReadHangs | rdma-common.c:253-281 | ... and one in which a read at any offset does |
| LostCompletions.WriteHangs | rdma-common.c:283-308 | ... and one in which the write after any write does |
| LostCompletions.ClosesWell | rdma-common.c:189-222 | every connection also has a run from its start in which _rdma_done returns and the connection is cut |
| RemoteMemory.WriteServed | rdma-common.c:283-308 | a write that has returned is in the plain array, whatever else happened on the connection during the call |
| RemoteMemory.ReadServed | rdma-common.c:253-281 | a read that has returned has the bytes of the plain array, which it leaves as it was |
| RemoteMemory.Schedulable | rdma-common.c:253-308 | as long as the peer does not say DONE, every list of reads and writes can be served, call after call |
| RemoteMemory.Connection.WriteOffset | rdma-client.c:156-160 | in whatever run it is served, the array afterwards is the array before with the buffer at the offset |
| RemoteMemory.Connection.ReadOffset | rdma-client.c:150-154 | in whatever run it is served, the bytes at the offset |
| RemotePages.PageReadBack | page.c:122-127 | over the protocol itself: in every run whose writes are a page-out, any later read at page i's offset returns page i |
| Paging.PageIn | page.c:57-76 | a fault maps the page to its own frame again with P and W, fills it from the peer, and changes no other page; the assertion in the handler fails exactly if the pool has no room for the page's missing tables; the processor then reads the page from that frame and lets the kernel write it |
| Paging.PageOut | page.c:122-127 | after the loop the peer holds page i at offset i times the page size, in every run of the connection in which the calls return |
| Paging.PageOutAndIn | page.c:115-137 | for every page count, every order of first touches, any content of the local frames after unmap and every run of the connection in which the calls return: no handler fails, and at every touched page the processor finds the bytes from before, so the comparison holds, and may write |
| Paging.CallsServable | page.c:122-137 | there are such runs, for every buffer and every order, as long as the peer does not say DONE |
| Paging.StartServable | rdma-common.c:180-222 | and so on every connection from its start, which the peer's region and the client's start bring to where the calls can be made |
| SthreadWalks.PassVisit | dune/apps/wedge/sthread.c:92-128 | one call of a callback: the page's entry, its contents and the counter change as the callback says, and nothing else |
| SthreadWalks.WalkEveryPage | dune/libdune/vm.c:53-111 | over pages that all have 4 KB entries the walk calls an sthread's callback for each page in turn, and cannot fail |
| Sthread.CheckpointDo | dune/apps/wedge/sthread.c:445-462 | the k-th page of the checkpoint is what the process sees at its k-th writable page |
| Sthread.RemapWalk | dune/apps/wedge/sthread.c:517-527 | the walk over a segment maps its pages to the pages of the private copy that the counter has reached |
| Sthread.RecycleWalk | dune/apps/wedge/sthread.c:92-110 | the walk over a segment puts back the checkpoint's pages that the counter has reached, where they are dirty |
| Sthread.Sthread.Create | dune/apps/wedge/sthread.c:578-623 | fails exactly if clone does; otherwise the new sthread's k-th writable page is mapped to the k-th page of its private copy of the checkpoint, and no other root notices |
| Sthread.CopyStep | dune/apps/wedge/sthread.c:92-110 | one call of walk_recycle: a dirty page gets the checkpoint's bytes at the offset reached, and is clean; a clean page is left alone; all others stay well |
| Sthread.Sthread.Store | dune/apps/wedge/sthread.c:500-511 | whatever the sthread writes to its pages goes to its own frames, and leaves them dirty |
| Sthread.Sthread.Recycle | dune/apps/wedge/sthread.c:130-150 | after recycle private memory equals the checkpoint and the stack is zero, whatever was written, and no other root notices |
| Sthread.Sthread.Lives | dune/apps/wedge/sthread.c:625-640 | and so for any number of lives, although the dirty bits of the stack are never cleared |
| Sthread.CheckpointAndLives | dune/apps/wedge/sthread.c:445-640 | from checkpoint over clone and remap to any number of lives: an sthread finds at the process's writable pages what the process had there at the checkpoint, and an empty stack; no page of the process outside the private copy and the stack changes; and the processor lets it write there |
| Arena.Arena.Brk | dune/apps/sandbox/umm.c:101-141 | where the break ends up, what errors change nothing, exactly when the call succeeds, whether the host maps or refuses, and with which error it does not |
| Arena.ShrinkFails | dune/apps/sandbox/umm.c:101-141 | with an arena that is otherwise empty, growing the break and then shrinking it succeeds exactly if the two areas would fit side by side; three quarters cannot be shrunk to half |
| Arena.Arena.Mmap | dune/apps/sandbox/umm.c:161-196 | an unhinted mapping gets fresh, page-aligned room below the others, exactly when the unrounded sum fits, and never when the host refuses or the mapping is neither anonymous nor of a file |
| Arena.Arena.Mremap | dune/apps/sandbox/umm.c:284-326 | moving a mapping reserves fresh room for it in the same way; errors change nothing; it fails when the host refuses, and with the errors of the source |
| Arena.Arena.AllocStack | dune/apps/sandbox/umm.c:328-349 | a stack's whole range is reserved below the mappings, exactly when it fits and the host maps it |
| Arena.RoundedFits | dune/apps/sandbox/umm.c:26-30 | a length that passes the check fits when rounded up to pages |
| Arena.CheckWraps | dune/apps/sandbox/umm.c:26-30 | in 64 bits the check passes exactly what fits or wraps round |
| Arena.RunArena | dune/apps/sandbox/umm.c:101-349 | over any mix of calls the break area and everything handed out stay page-aligned, in the arena and pairwise disjoint |

## Left out

- The source's TLB flushes after mprotect, unmap and copy-on-write are not modelled for the guest table; an access of the processor sets its accessed and dirty bits as one step.
- Walks with length 0 or a wrapping range, and `dune_vm_free`, which walks the root as if it were a lower table and does not meet its own comment.
- VmRuns.RunConserves: big guest entries hold no reference, so runs do not unmap a big entry that names a pool page nor clone a root with big entries; nor do they overwrite a 4 KB entry that names a pool page with map_phys or map_pages, which drop no reference, or a table with a big entry, which loses it.
- 64-bit overflow of a reference count by repeated gets, and pool sizes at which the `int` arithmetic of page.c overflows.
- `set_page_dirty_lock` on dropped writable pages, the kernel's locks, and the time between `get_user_pages_fast` and taking `ept_lock`: a fault is one step.
- GuestCalls.VmMapPhys: for ranges that hold no entry larger than those asked for; over one, the source stores a 4 KB entry in the larger entry's slot.
- GuestCalls.VmMapPages: for ranges without larger entries; the counts are promised where the range has no entry for a pool page.
- CowTheorems.CowKeepsBytes: for 4 KB entries; the handler gives a big copy-on-write entry a single 4 KB page.
- EptRuns.RunShadow: agreement at pages that are no image, in layouts out of order, is not promised, since it fails; and it is for 4 KB pages of the process; huge pages are covered by conservation and by the exact effect of each routine, since 4 KB invalidation does not reach them.
- Migration.RunSafe: on values, as interleaved steps, since several CPUs act on one state; VMCS contents, FPU, signals, the VMCS write of the signal path after the CPU is given up, and replacing a present EPT entry by one for another frame are not steps; a vCPU is destroyed when no flush of its EPT is under way, as unregistering the notifier ensures.
- RdmaChannel.ReadsArePlain: on values, as interleaved steps, with calls serialised by the caller's mutex and in-order delivery of a reliable connection; failed completions end the process and are not steps, nor is the construction of the connection before the first receive is posted.
- Paging.PageOutAndIn: the fault address is page-aligned; no page of the buffer has a big entry, each has been written before, as `main` does, so that its table is there, and the buffer's own frames hold no page tables; the calls on the connection return, as they may not when the peer says DONE early.
- TwoStage.SetupMappingsFull: without the vdso and vsyscall pages that are redirected afterwards, and without the precise set-up; the room it asks for is enough, and not always needed.
- The contents of frames are kept apart from the tables, so a store to a frame that holds a table is not modelled.
- Sthread.Sthread.Create: without `walk_protect`, which changes only who may use a page; every writable page has a 4 KB entry; tags and scheduling are not modelled.
- Arena.RunArena: arithmetic of the arena with the host's answers as inputs; hinted mappings, munmap, shared memory and the page-table calls, which are those of GuestCalls, are not part of it.
- dune/kern/rdma-common.c and dune/kern/rdma-client.c, the verbs and connection-manager libraries, ELF and process-map readers, the firewall, exec, system-call dispatch, GDT, IDT and MSR set-up, benchmarks and tests.
- eglibc-2.14 is not part of this model.
