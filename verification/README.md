# Zoeax in Dafny

Zoeax is a single-core, capability-based microkernel written in Rust.  This project models its
hard core in Dafny and proves what the code promises: over every input, every reachable state and
every run.  `dafny verify dfyconfig.toml` covers all of it.

The kernel is a debug build, so an arithmetic overflow, a failed assertion and an access through a
pointer that designates nothing all stop it.  The model keeps that outcome apart from the errors
that calls return: `Halt` in results, `None` in the thread machine, `ok == false` in methods of the
kernel's own data structures.

## How it is laid out

| file | what it holds |
|---|---|
| `Kinds.dfy`, `Bits.dfy`, `Packing.dfy` | results and error kinds; shifts and masks on naturals; every packed word of the kernel with its inverse |
| `PageTables.dfy`, `TableEffects.dfy`, `AddressSpaces.dfy` | Sv48 tables as a tree and as the plain map it stands for, the hardware's translation, what each store does to the tree wherever it goes, and the operations that change tables in place |
| `Boot.dfy`, `Loader.dfy`, `UserLoader.dfy` | cutting memory into blocks, loading the first program, and that program loading others through a scratch page |
| `Retyping.dfy`, `Memory.dfy` | objects made from untyped memory, and who owns which memory over whole runs |
| `CSpace.dfy`, `Syscall.dfy`, `Handles.dfy`, `Derivation.dfy` | lookup in any graph of CNodes, invocations, the addresses user programs compute, and the derivation list |
| `Invocations.dfy`, `Sessions.dfy` | what programs can rely on over one call or several: communication through capabilities, new capabilities, mapping and unmapping, results; and whole sessions together with the memory they use, up to what the hardware answers |
| `Threads.dfy`, `ThreadRuns.dfy`, `RunQueue.dfy`, `ThreadKernel.dfy` | threads, endpoints, notifications and the scheduler as one machine; what its runs guarantee; when its run queue is in order; and the linked lists by which the kernel implements it |

What the kernel changes in place is modelled by classes, and each is proved against a simpler form on
values.  Page tables: the class `Spaces` over tables in memory, and a map from (root, path) to entry.
Threads: the class `Kernel` over intrusive lists whose links live in the threads, and a machine in which
the queues of endpoints and notifications are sequences; the run queue keeps its two pointers, because
what it holds depends on old links.  One step of that machine is one trap: an event is handled, then
`schedule`.

## What the code does that one might not expect

Each of these is proved, with the exact condition under which the expected behaviour holds.

- Popping a list leaves the link of the removed thread set.  Blocking and waking check that the link
  is clear, so from a state fit for user mode a call stops the kernel exactly when it takes a partner
  from among several waiting threads, or blocks a thread whose own link is set (`StopsExactly`).  The
  scheduler does not check: popping the only thread of the run queue leaves the list going on from
  the old link, and the run queue is right afterwards exactly if that link is clear or leads to a
  current thread that is queued again (`ScheduleShows`, `TrapOrdered`).  `BlockedThreadQueued` gives a
  run of two threads after which a blocked thread is next in the run queue.  Messages, signals and
  waiting threads do not depend on it: what is said of them holds over every run in which callers wait
  nowhere and resuming meets the next condition, whatever the run queue holds.
- Resuming checks nothing.  It leads back to a state fit for user mode exactly if the thread waits
  nowhere and, if it is the one that runs, its link is set (`ResumeExactly`).  A thread that resumes
  itself with a clear link may block and run on while it waits (`SelfResumedRunsOn`,
  `AloneResumesItself`), and a waiting thread at the end of the run queue then stops the kernel when it
  is woken, although nobody waits with it (`LinkedWaiterStops`).  The run queue is appended to exactly if
  the thread is neither queued nor running (`ResumeAppends`); resuming a queued thread makes it a circle
  that can be popped for ever (`QueuedTwice`).
- When nobody else is queued, the scheduler renews the slice of the current thread and leaves the
  request for scheduling set: every further trap renews it again (`AloneRenewed`), and the first thread
  that it then wakes runs at once (`WokenRunsAtOnce`).
- Mapping a page or-s its address into the capability's word.  What the capability then remembers is
  where the page is mapped exactly if the page bits of the word were among those of the address
  (`PageWord`): they are for new pages and copies, for which unmapping undoes mapping (`MapThenUnmap`), and
  need not be for a page that was minted over (`MintedPageForgets`).
- Neither linking a table nor mapping a page checks that the named table is a root, and a capability
  that says unmapped may designate a table that is linked.  The tables are still a tree afterwards
  exactly if a page goes into a table of level 0, a linked table is zero and hung nowhere, and a new
  root hung below no root, or if the entry is in no tree (`OrderlyExactly`).  The same table mapped
  through two copies of its capability leaves no tree (`MappedTwice`), and what is then mapped through
  one address appears at the other (`SharedLeaf`).
- The kernel's loader copies the first byte of a segment to the start of its first page, so every load
  leaves a segment where its header says exactly if that address is aligned to a page
  (`LoadsRightExactly`); otherwise byte k + vaddr % 4096 is found at vaddr + k (`UnalignedLoad` gives an
  input).  The first program's loader cannot do that, because the kernel refuses to map at an address
  that is not aligned: it loads nothing there (`UserLoader.ElfMapper.MapProgram`).
- Retyping several objects uses their total size as the distance between them.  They never overlap,
  but the check for space does not cover them: they stay in their block exactly if the rounded free
  index, one distance less than there are objects, and one object end in it (`InsideExactly`); for one
  object from an aligned free index the check is right (`OneFits`), and for several pages it can pass
  while all but the first lie outside (`CheckIsTooWeak`).
- A page mapped writable but not readable, or without any right, is bound but never accessible: the
  encoding is reserved, or reads as a pointer.  And the kernel never sets the accessed and dirty bits, so
  programs have the rights they asked for only on hardware that sets these bits itself
  (`HardwareAgrees`, `RightsGranted`).
- A CNode of one slot takes no bits of an address.  Every lookup stops exactly if no such CNode leads
  back to itself through such CNodes (`LookupsStopExactly`); copying a capability closes such a circle
  exactly if it goes into a CNode of one slot that it can reach (`FillGrounded`, `CopyKeepsCaps`).  The
  address composed for the slot of such a CNode finds the CNode instead (`CompositionNeedsRadix`).
- The library's `mint` gives the kernel the whole address of the new slot where it expects one from the
  destination CNode on, so its handle is right exactly if that address leads to the same slot from
  there (`MintHandle`): it does in a root CNode that holds itself (`MintIntoRoot`), and not in a CNode
  below the root, where the handle may find an empty slot (`MintElsewhere`, `MintMisses`).
- The last slot of a CNode can never be a target of retyping, and asking for no object at all stops
  the kernel (`GetWritable`).
- Moving a capability derives it like copying does: a moved endpoint capability loses its badge, a
  page can be moved only while mapped and then forgets where (`DerivedCap`).
- The `bits` field of the boot information about a block holds its size in bytes, despite its name
  (`FillUntyped`).

## Model

| member | source | states |
|---|---|---|
| `Bits.AlignUpIsLeast` | shared/src/lib.rs:49-52 | rounding up by masking gives the one multiple of a power of two in [value, value + align) |
| `Packing.KernelAddressBits` | kernel/src/address.rs:132-142 | setting and clearing the kernel prefix are inverse on physical addresses below 2^47 |
| `Packing.VpnBits` | kernel/src/address.rs:156-161 | shifting and masking select the nine-bit digit of the page number at each level |
| `Packing.SameIndicesSamePage` | kernel/src/address.rs:156-161 | the four indices and the 36-bit page number determine each other |
| `Packing.PteWriteBits` | kernel/src/object/page_table.rs:203-207 | the word written into an entry is frame number and flags side by side |
| `Packing.PteAddressBits` | kernel/src/object/page_table.rs:199-201 | the address read from an entry by shifting and masking |
| `Packing.PteRoundTrip` | kernel/src/object/page_table.rs:194-207 | address, flags and validity are read back as written |
| `Packing.SetAddressBits` | kernel/src/capability.rs:160-166 | the two parts of an object address that shifting and masking store |
| `Packing.GetAddressBits` | kernel/src/capability.rs:154-158 | the address put together again by shifting and or-ing |
| `Packing.CapAddressRoundTrip` | kernel/src/capability.rs:154-166 | a 48-bit object address survives being split into 16 and 32 bits |
| `Packing.UntypedWordBits` | kernel/src/capability/untyped.rs:34-42 | the word of an untyped capability is free index above block exponent |
| `Packing.UntypedFieldBits` | kernel/src/capability/untyped.rs:153-164 | the fields read by shifting and masking |
| `Packing.UntypedRoundTrip` | kernel/src/capability/untyped.rs:34-164 | free index and exponent are read back as written, and the block is not a device |
| `Packing.SetMappedBits` | kernel/src/capability/page_table.rs:57-84 | the words that mark a table mapped and then a root |
| `Packing.MappedFieldBits` | kernel/src/capability/page_table.rs:141-161 | whether a table or page is mapped or a root, and where, as read by shifting and masking |
| `Packing.MappedAddressRoundTrip` | kernel/src/capability/page_table.rs:141-161 | the address a page capability keeps selects, at every level, the index it was mapped at |
| `Packing.MarkedWord` | kernel/src/capability/page_table.rs:141-144 | marking a word that holds something already: it says mapped, it is a root if it was one, and the page it keeps has the bits of both |
| `Packing.LinkRoundTrip` | kernel/src/object/cnode.rs:47-76 | a derivation link is read back although the shift drops the top 16 bits of the address |
| `PageTables.PathUnique` | kernel/src/object/page_table.rs:79-93 | in an unshared tree two walks that reach one table are the same walk from the same root |
| `PageTables.StoreLeaf` | kernel/src/object/page_table.rs:161-188 | writing a leaf entry changes exactly one binding of one root and keeps the tree |
| `PageTables.StoreInner` | kernel/src/object/page_table.rs:69-77 | linking a zero table where nothing was linked changes no binding of any root |
| `PageTables.NewRoot` | kernel/src/object/page_table.rs:105-111 | a copy of the kernel root is a root without user bindings, and disturbs no other |
| `PageTables.HardwareAgrees` | kernel/src/object/page_table.rs:79-93 | the translation algorithm of section 4.3.2 of the RISC-V privileged manual (with the Sv48 parameters of section 4.5), all eight steps for loads, stores and fetches of user mode, answers from the plain map on every user address: with the bound frame if the flags grant the access, otherwise with a fault |
| `PageTables.RightsGranted` | kernel/src/object/page_table.rs:39-57 | user mode has of a mapped page exactly the rights asked for, if and only if the hardware marks pages accessed and dirty itself and writing was not asked for without reading |
| `TableEffects.LeafEffectHolds` | kernel/src/object/page_table.rs:161-188 | a leaf entry written or cleared in any table: outside the tree no binding changes; in a table of level 0 exactly the binding of the one way that leads there, and the tree stands |
| `TableEffects.PageKeepsTreeExactly` | kernel/src/object/page_table.rs:161-171 | a page stored in a free entry leaves a tree exactly if the entry is in no tree or of level 0 |
| `TableEffects.LinkEffectHolds` | kernel/src/object/page_table.rs:69-77 | a table linked in any free entry: outside the tree and at level 0 as for a page; for a zero table that hangs nowhere no binding changes; a second link, or one in the kernel half, leaves no tree |
| `TableEffects.LinkKeepsTreeExactly` | kernel/src/object/page_table.rs:69-77 | linking a zero table in a free user entry leaves a tree exactly if it hangs nowhere |
| `TableEffects.MappedTwice` | kernel/src/capability/page_table.rs:28-37 | one table mapped through two copies of its capability: a tree after the first, none after the second |
| `TableEffects.SharedLeaf` | kernel/src/object/page_table.rs:161-171 | a page mapped through a table that two paths share is bound on both |
| `TableEffects.RootEffectHolds` | kernel/src/object/page_table.rs:105-111 | copying the kernel root over any table: one that hangs nowhere becomes a root without bindings, a root loses its bindings and nothing else does, one below a root leaves no tree |
| `TableEffects.RootKeepsTreeExactly` | kernel/src/object/page_table.rs:105-111 | making a root leaves a tree exactly if the table hangs nowhere or is a root |
| `AddressSpaces.Spaces.Walk` | kernel/src/object/page_table.rs:79-93 | the loop ends at the lowest table on the path, at the index the address selects there; it stops the kernel exactly if it follows an entry that leads to no table |
| `AddressSpaces.Spaces.MapTable` | kernel/src/object/page_table.rs:69-77 | links the table where the walk from whatever table is named ends, with the effect of that store on tree and bindings; in the user half of a root it fails exactly when the walk is complete, and for an unlinked zero table the map of all bindings is the same and the walk gets one level further; the level is reported |
| `AddressSpaces.Spaces.MapPage` | kernel/src/object/page_table.rs:161-171 | stores the page where the walk from whatever table is named ends, with the effect of that store; in the user half of a root it adds exactly one binding, or reports the missing level or the taken address and changes nothing |
| `AddressSpaces.Spaces.UnmapPage` | kernel/src/object/page_table.rs:176-188 | clears an entry that points at this frame, with the effect of that store; in the user half of a root it removes exactly that binding, or says why not and changes nothing |
| `AddressSpaces.Spaces.CopyGlobalMapping` | kernel/src/object/page_table.rs:105-111 | makes any table a copy of the kernel root, with the effect of that on tree and bindings; one that was not linked becomes a root and no binding changes |
| `AddressSpaces.GrantedWhere` | kernel/src/object/page_table.rs:69-188 | for whatever table is named: a page is mapped exactly where all tables are in place and nothing is bound, unmapped exactly where this page is bound, and a table linked exactly where one is missing, one level below the lowest there is |
| `AddressSpaces.MapUnmapRestores` | rootserver/src/elf.rs:122-137 | unmapping what was just mapped restores the tables exactly |
| `AddressSpaces.Spaces.MapPageCap` | kernel/src/capability/page_table.rs:104-121 | maps unless the capability says mapped, with the exact error otherwise, and then marks the word and or-s in the address |
| `AddressSpaces.Spaces.UnmapPageCap` | kernel/src/capability/page_table.rs:123-133 | unmaps from where the capability remembers it, and forgets it |
| `AddressSpaces.Spaces.MapTableCap` | kernel/src/capability/page_table.rs:28-37 | links unless the capability says mapped, with the effect of that store also if the table is linked already or not zero; nothing changes on failure |
| `AddressSpaces.Spaces.MakeRootCap` | kernel/src/capability/page_table.rs:62-72 | turns a table into a root unless the capability says mapped, with the effect of that also if the table is linked; whatever the word held, it says root and mapped |
| `Boot.BumpAllocator.AllocatePages` | kernel/src/init/pm.rs:29-34 | hands out the next pages, or stops when they pass the end |
| `Boot.UntypedGenerator.Next` | kernel/src/init/root_server.rs:253-269 | the largest power of two that fits at the front; at most 4096 bytes are never made a block |
| `Boot.FillUntyped` | kernel/src/init.rs:82-96 | blocks and a tail of at most 4096 bytes are exactly the rest of memory; sizes are strictly decreasing powers of two of at least 4096; slots are consecutive; below 2^44 bytes the limit of 32 is never met |
| `Boot.FewBlocks` | kernel/src/init.rs:82-95 | strictly decreasing exponents from 12 up leave room for few blocks |
| `Loader.BootLoader.MapPageTables` | kernel/src/init/root_server.rs:374-393 | the loop ends, adds exactly as many tables as were missing, changes no binding, and the walk is then complete; it fails exactly if there is not memory and slots for all of them |
| `Loader.BootLoader.CreateMappedPage` | kernel/src/init/root_server.rs:348-372 | the retried map succeeds: exactly one binding is added, with as many pages and slots as tables were missing; it fails exactly if the address is taken or there is not enough for those tables |
| `Loader.PageContentIsImage` | kernel/src/init/root_server.rs:334-342 | what a page receives is its part of the memory image: file bytes, then zeros |
| `Loader.LoadPage` | kernel/src/init/root_server.rs:316-343 | binding a fresh frame with the next part of the image extends the loaded prefix by a page |
| `Loader.BootLoader.MapProgram` | kernel/src/init/root_server.rs:305-345 | from the start of the segment's first page on, every byte up to the rounded-up size reads through the tables as the image: at vaddr + k byte k + vaddr % 4096, so byte k if vaddr is aligned; nothing else changes; failure means a taken page or exhausted resources, and four pages of memory and four slots for each page are always enough |
| `Loader.LoadsRightExactly` | kernel/src/init/root_server.rs:305-345 | every load leaves the image of its segment at the segment's address exactly if that is aligned to a page |
| `Loader.UnalignedLoad` | kernel/src/init/root_server.rs:316-343 | an input: at an address that is not aligned, a file of one byte reads as zero |
| `Loader.BootLoader.MapSelf` | shared/src/elf.rs:21-45 | all loadable segments read as their images at the end, those at aligned addresses where their headers say; failure means two share a page, a page was taken, or resources ran out |
| `Loader.PastTheEnd` | kernel/src/init.rs:48-63 | one and two pages past the highest page nothing is bound, and the two differ |
| `Loader.BootLoader.CreateInitialSpace` | kernel/src/init.rs:48-63 | after loading, the IPC buffer and the boot information are mapped past the program with their rights, never hitting a taken address, and the program still reads as its image |
| `UserLoader.ElfMapper.MapPageTables` | rootserver/src/elf.rs:160-173 | the loop ends; it succeeds exactly if the address is aligned, a table is missing and there are slots and memory for all that are, and then it has added exactly those; otherwise it ends when slots or memory do |
| `UserLoader.ElfMapper.RetypePage` | rootserver/src/elf.rs:146-147 | a slot and a page, or why not: no slot left, the last slot, which the kernel refuses, or no memory |
| `UserLoader.ElfMapper.MapCall` | kernel/src/syscall.rs:249-265 | the kernel refuses an address that is not aligned, and otherwise maps as for any program |
| `UserLoader.ElfMapper.MapPageWithTables` | rootserver/src/elf.rs:141-158 | a fresh zero page is bound at the address, with the tables it needs, exactly if the address is aligned and free and there are slots and memory for the page and the missing tables; an address that is not aligned or is taken is an invalid operation, unless retyping failed before |
| `UserLoader.ElfMapper.CopyThroughScratch` | rootserver/src/elf.rs:122-137 | mapping at the scratch address, writing and unmapping succeeds exactly if that address is aligned, fills the frame and leaves every table as it was |
| `UserLoader.ElfMapper.MapPage` | rootserver/src/elf.rs:113-139 | one page of the image is bound in the target exactly if the address is aligned and free, there are slots and memory for it and its tables, and the scratch address is aligned if there is something to copy; the scratch address is free again however it ends |
| `UserLoader.ElfMapper.MapProgram` | rootserver/src/elf.rs:51-67 | a segment with anything to load is loaded only at an aligned address, and then every byte reads as its image there; elsewhere the call fails at the first page, with the error named, and maps nothing; it fails only if slots or memory run out, a page is taken, or an address is not aligned, and five slots and four pages of memory for each page are always enough |
| `UserLoader.ElfMapper.GetSlot` | libzoea/src/caps.rs:260-274 | slots are handed out once each until none is left |
| `Retyping.FirstFree` | kernel/src/capability/untyped.rs:92-93 | rounding the free index up as a kernel address rounds the physical address up, by less than the alignment |
| `Retyping.PlanIsTidy` | kernel/src/capability/untyped.rs:68-103 | objects of one retype are aligned, disjoint, at or above the old free index and below the new one |
| `Retyping.SeriesIsTidy` | kernel/src/capability/untyped.rs:68-103 | over any series of requests all objects ever made are aligned and disjoint and the free index never goes back |
| `Retyping.InsideExactly` | kernel/src/capability/untyped.rs:83-95 | all objects lie inside the block exactly if FirstFree(free) + (num - 1) * (num * size) + size does not pass its end, a condition on the arguments of the call |
| `Retyping.PageAfterPage` | kernel/src/capability/untyped.rs:83-103 | single pages and tables from an aligned free index come one after the other until the block is used up |
| `Retyping.OneFits` | kernel/src/capability/untyped.rs:87-91 | for one object from a free index aligned for it, the kernel's check guarantees that it fits |
| `Retyping.CheckIsTooWeak` | kernel/src/capability/untyped.rs:84-95 | pages that exactly fill a page-aligned block pass the check, and all but the first lie outside |
| `Retyping.GrantedExactly` | kernel/src/capability/untyped.rs:83-91 | unless a number leaves the word, retyping is granted exactly if all objects together are no larger than what is left of the block, and refused for want of memory otherwise; it starts at the rounded free index and uses up num distances of the total size |
| `Retyping.UntypedCap.Retype` | kernel/src/capability/untyped.rs:68-103 | reserves memory as planned or leaves the word alone; all objects ever made stay apart, the free index never goes back, the block size never changes |
| `Retyping.CapGenerator.Next` | kernel/src/capability/untyped.rs:215-236 | one capability after another, one stride apart, each unused: a page or table that says it is mapped nowhere, an endpoint or notification without a badge, a CNode with the radix asked for |
| `Retyping.InsertAll` | kernel/src/capability/untyped.rs:145-150 | the i-th capability goes into the i-th slot; no other slot changes |
| `Retyping.UntypedCap.RetypeAndInsert` | kernel/src/capability/untyped.rs:135-151 | exactly the asked-for slots are filled, with unused capabilities to the planned objects |
| `Memory.HandedOutIsZero` | kernel/src/init/pm.rs:11-34 | whatever is handed out, by the bump allocator or by retyping, is zero at that moment |
| `Memory.NewCNodeIsEmpty` | kernel/src/capability/cnode.rs:33-35 | every slot of a new CNode is empty, although nothing clears it |
| `Memory.StepKeeps` | kernel/src/capability/untyped.rs:135-151 | each allocation, the end of booting, each retype that meets the condition of `InsideExactly` and each write to what was handed out keeps the memory invariant |
| `Memory.UnusedMemoryIsZero` | kernel/src/init/pm.rs:11-34 | over every run from cleared RAM all ranges ever handed out are disjoint and the rest of RAM is zero |
| `CSpace.IndexIsPrefix` | kernel/src/capability/cnode.rs:134-147 | shifting and masking select the number spelled by the leading bits of the address |
| `CSpace.LookupEntry` | kernel/src/capability/cnode.rs:105-147 | on every graph of CNodes without a circle of one-slot CNodes, cyclic or not, the loop ends and finds what the recursive reading of the address as a bit string finds; every index is in bounds; it stops the kernel exactly for a first shift of 64 or more |
| `CSpace.ResolveComposes` | kernel/src/capability/cnode.rs:105-128 | more bits lead on from a CNode that the first ones find; from an empty slot or any other capability they lead nowhere, and what was found is found again |
| `CSpace.LookupsStopExactly` | kernel/src/capability/cnode.rs:105-147 | every lookup, from every CNode, with every address and depth, stops exactly if no one-slot CNode leads back to itself through one-slot CNodes |
| `CSpace.SelfLoopNeverStops` | kernel/src/capability/cnode.rs:105-128 | an input: with one slot that holds a capability to itself the loop never stops |
| `CSpace.FillGrounded` | kernel/src/syscall.rs:130-152 | filling an empty slot closes such a circle exactly if it puts a capability to a one-slot CNode into a one-slot CNode that can be reached from it |
| `CSpace.ComposedPath` | libzoea/src/caps.rs:248-254 | shifting an address up and adding an index appends the bits of the index |
| `CSpace.AddressComposition` | libzoea/src/caps.rs:248-254 | if (p, d) leads to a CNode of more than one slot, the composed address leads to its slot i, also when the CNode is the root |
| `CSpace.CompositionNeedsRadix` | libzoea/src/caps.rs:248-254 | if it leads to a CNode of one slot, the composed address leads to where that CNode's capability is and never to its slot |
| `CSpace.HandleDesignatesFilledSlot` | libzoea/src/caps.rs:201-225 | after slot i has been filled the composed address finds it there |
| `Handles.StillResolves` | kernel/src/capability/cnode.rs:105-128 | filling empty slots and changing words of other capabilities moves no address that was found |
| `Handles.RetypeHandle` | libzoea/src/caps.rs:201-225 | the handle computed for a new object designates the slot that the kernel filled with it |
| `Handles.CopyHandle` | libzoea/src/caps.rs:280-302 | the handle computed for a copy designates the slot that the kernel filled with it |
| `Handles.MintHandle` | libzoea/src/caps.rs:312-334 | the handle computed for a minted copy finds slot i of the destination, and so the new capability exactly if the whole address leads to slot i from the destination CNode too |
| `Handles.MintIntoRoot` | libzoea/src/caps.rs:312-334 | it does for a root CNode that holds a capability to itself |
| `Handles.MintElsewhere` | libzoea/src/caps.rs:312-334 | whenever the whole address leads elsewhere from the destination CNode and slot i is empty, the kernel grants the request and the handle finds an empty slot |
| `Handles.MintMisses` | libzoea/src/caps.rs:312-334 | an input: an endpoint minted into slot 1 of a CNode below the root lands in slot 0 |
| `Syscall.GetWritable` | kernel/src/capability/cnode.rs:72-86 | grants exactly the ranges that end before the last slot, are empty and are not of length 0, where the kernel stops; a range that ends too late and one that is not empty have different errors |
| `Syscall.FoundExactly` | kernel/src/syscall.rs:91-95 | a capability of a type is found exactly if the address leads to a slot that holds one; too few bits, an empty slot and another type are different errors, and a first shift of 64 or more stops the kernel |
| `Syscall.System.InvokeCNode` | kernel/src/syscall.rs:124-154 | copy, mint or move as planned from the two lookups, the empty destination and the derived capability, or an error and no change |
| `Syscall.CopyGranted` | kernel/src/syscall.rs:124-154 | copying, minting and moving are granted exactly if the source is found from the caller's root, the destination from the invoked CNode and is empty, and the source is neither a thread nor untyped memory nor an unmapped page; a copy of what is in the one place goes into the other; the errors otherwise |
| `Syscall.DerivedCap` | kernel/src/object/cnode.rs:107-140 | a derived capability designates the same object; a copy of an endpoint or notification has no badge and one of a page no mapping, so that it cannot be copied itself; threads, untyped memory and unmapped pages give their errors |
| `Syscall.CopyConserves` | kernel/src/syscall.rs:130-152 | copying and minting occupy one more slot, which was empty, moving none; no other slot changes |
| `Syscall.CopyKeepsCaps` | kernel/src/syscall.rs:130-152 | unless a CNode is minted over, capabilities stay sound and lookups still stop exactly if the new slot closes no circle of one-slot CNodes |
| `Syscall.System.InvokeUntyped` | kernel/src/syscall.rs:97-123 | retype as planned from the lookup, the checked slots and the free memory; new page tables are cleared and new threads start unconfigured, whatever was there; or an error and no change |
| `Syscall.RetypeGranted` | kernel/src/syscall.rs:97-123 | granted exactly if the type is known and is not untyped memory, a CNode is found, the slots asked for can be filled and the block has room; what is made, where and how many is as asked |
| `Syscall.RetypedSlot` | kernel/src/object/cnode.rs:222-240 | every slot after a retype: the new capabilities in the asked-for slots, the untyped word moved on, all else as before |
| `Syscall.RetypeConserves` | kernel/src/syscall.rs:106-120 | num more slots are occupied, exactly the ones checked to be empty |
| `Syscall.RetypeKeepsCaps` | kernel/src/syscall.rs:106-120 | retyping in memory where no CNode is keeps all capabilities sound and closes no circle of one-slot CNodes, also when it makes such CNodes |
| `Syscall.System.MapPage` | kernel/src/syscall.rs:249-265 | the exact answer; on an error nothing changes; success stores one entry where the walk from the named table ends, whatever table that is, and the word then is `PageWord`; for a user address of a root it adds one binding |
| `Syscall.System.UnmapPage` | kernel/src/syscall.rs:266-277 | the exact answer; success clears one entry where the walk from the named table ends, whatever table that is, and the word; for a user address of a root it removes one binding |
| `Syscall.System.MapTable` | kernel/src/syscall.rs:284-299 | the exact answer, with the level; success links the table where the walk from the named table ends, also if it is linked already, and the word then is `TableWord`; no binding changes if the named table is a root, the address a user address and the table zero and unlinked |
| `Syscall.System.MakeRoot` | kernel/src/syscall.rs:303-306 | the exact answer; success makes a copy of the kernel root and a word that says so; no binding changes if the table was not linked, a root loses its bindings, and a table below a root leaves no tree |
| `Syscall.MemoryGranted` | kernel/src/syscall.rs:249-299 | mapping a page is granted exactly at an aligned address, through a table that is found, for a page that says it is mapped nowhere, where all tables are in place and nothing is bound; unmapping exactly where the page remembers to be mapped and is; mapping a table exactly where one is missing |
| `Syscall.MemoryRefused` | kernel/src/syscall.rs:249-309 | why mapping and unmapping are refused otherwise, in the order of the checks: alignment, lookup, what the capability says of itself; unmapping a table stops the kernel, and other labels are not understood |
| `Syscall.PageWord` | kernel/src/capability/page_table.rs:141-149 | a page that is mapped says so, and remembers the page it is mapped at exactly if the page bits of its word were among those of the address; one that is unmapped remembers nothing |
| `Syscall.TableWord` | kernel/src/capability/page_table.rs:57-84 | a table that is linked or made a root says that it is mapped, and whether it is a root |
| `Syscall.BindingEffectHolds` | kernel/src/syscall.rs:249-306 | what each call does to the bindings of all address spaces, for whatever tables are named: those of the one way to the entry written, none, or all of a root that is made again |
| `Syscall.OrderlyStands` | kernel/src/syscall.rs:249-306 | address spaces stay trees under a condition on the call: pages into tables of level 0, zero unlinked tables into free user entries, roots that hung below no root, new tables in memory that hangs nowhere |
| `Syscall.OrderlyExactly` | kernel/src/syscall.rs:249-306 | for mapping pages, mapping zero tables and making roots that condition is exact: after any other call the tables are no tree |
| `Syscall.System.Configure` | kernel/src/syscall.rs:158-180 | the exact answer; succeeds exactly if both slots have the right types and the thread is not configured, and then copies them into it; fails exactly if a lookup or a type is wrong, and otherwise stops the kernel; nothing changes then |
| `Syscall.System.WriteRegisters` | kernel/src/syscall.rs:181-188 | the registers of the thread are the first words of the caller's message, or an error if it has no buffer |
| `Syscall.System.SetIpcBuffer` | kernel/src/syscall.rs:189-199 | succeeds exactly if the slot holds a mapped page and the thread has no buffer, which the page then is; nothing changes otherwise |
| `Syscall.System.HandleInvocation` | kernel/src/syscall.rs:71-311 | the answer to every call, errors and their details included; a failure leaves every slot, table and configuration as it was; success changes slots, tables, bindings and configurations as its kind says and no others, occupies as many more slots as its kind says and overwrites no occupied slot; it keeps capabilities sound if tame and address spaces trees if orderly |
| `Syscall.ThreadGranted` | kernel/src/syscall.rs:155-205 | configuring is granted exactly if a CNode and a table are found and nothing is configured, giving an IPC buffer exactly if a mapped page is found and there is none, writing registers exactly if the caller has a message, resuming always; other labels are not understood |
| `Invocations.OneOutcome` | kernel/src/syscall.rs:71-311 | what an invocation answers and what it leads to is determined by the state and the call |
| `Invocations.IpcGranted` | kernel/src/syscall.rs:206-247 | endpoints understand sending and receiving, notifications signalling and waiting, and every other label is an error; no slot, table or configuration changes |
| `Invocations.SendArrives` | kernel/src/syscall.rs:231-236 | sending through a capability: the first receiver waiting at its endpoint finds its badge in a1 and can run; if none waits the caller waits as a sender with that badge and does not run on; it is told 0 |
| `Invocations.ReceiveArrives` | kernel/src/syscall.rs:237-241 | receiving through a capability: the caller finds the badge of the first waiting sender in a1, and that sender can run; if none waits the caller waits as a receiver |
| `Invocations.SignalArrives` | kernel/src/syscall.rs:212-215 | signalling through a capability: the first waiter finds its badge in a1 and can run; if none waits it is added to the pending bits |
| `Invocations.WaitArrives` | kernel/src/syscall.rs:216-221 | waiting through a capability: the caller finds the pending bits in a1, which are then cleared; if nothing is pending it waits |
| `Invocations.ResumeArrives` | kernel/src/syscall.rs:200-203 | resuming a thread through its capability makes that thread runnable |
| `Invocations.CopiedCap` | kernel/src/syscall.rs:124-154 | after a copy, mint or move the destination holds a capability to the same object: with the value minted onto it, or, unless it is a CNode or table, without badge and mapping |
| `Invocations.MintedBadgeArrives` | kernel/src/syscall.rs:138-151 | over three calls: the value minted onto a copy of an endpoint or notification capability, or 0 if none was, is what a send or signal through the copy delivers, at the object of the original |
| `Invocations.ResultReported` | kernel/src/syscall.rs:53-65 | over the whole trap: a failed call leaves its error in a0 and its detail in a1 and changes nothing else; a successful one leaves 0 in a0, and in a1 what was there or the level of the table that was linked |
| `Invocations.ErrorRead` | libzoea/src/syscall.rs:37-42 | the library reads the number of every error as that error, and 0 as none |
| `Invocations.MappedPage` | kernel/src/capability/page_table.rs:104-121 | a page that has been mapped can be copied and used as an IPC buffer, and remembers the page it is mapped at exactly under the condition of `PageWord` |
| `Invocations.MapAgainRefused` | kernel/src/capability/page_table.rs:104-112 | mapping it again is refused, wherever it is asked for |
| `Invocations.TableAgainRefused` | kernel/src/capability/page_table.rs:28-72 | a table that has been linked or made a root can be neither any more |
| `Invocations.MapThenUnmap` | kernel/src/capability/page_table.rs:104-133 | mapping a page in user space and unmapping it through the same table always succeeds and restores all tables; for a page as retyping makes it, everything |
| `Invocations.SameTable` | kernel/src/syscall.rs:249-277 | the address by which the table was named still names it after the page has been mapped |
| `Invocations.MintedPageForgets` | kernel/src/capability/page_table.rs:141-144 | an input: a page with 0x2000 minted onto it, mapped at 0x1000, remembers 0x3000 |
| `Invocations.RetypedCaps` | kernel/src/capability/untyped.rs:135-151 | after a granted retype every slot asked for holds an unused capability to its object; tables are cleared, and threads have been given nothing and have registers of zeros |
| `Invocations.RetypeLeaves` | kernel/src/capability/untyped.rs:135-151 | a granted retype touches no table or thread that lies elsewhere, and no slot but those asked for and its own |
| `Invocations.UnusedWorks` | kernel/src/syscall.rs:206-306 | what an unused capability is good for: a page is mapped exactly where the tables are in place and nothing is bound, a table linked exactly where one is missing and made a root, and an endpoint or notification sends badge 0 |
| `Invocations.NewThreadWorks` | kernel/src/syscall.rs:158-199 | a new thread is configured with any CNode and table that are found, and given any mapped page as its buffer |
| `Invocations.Configured` | kernel/src/syscall.rs:158-180 | a configured thread has the CNode and the table that were named, and no other thread changes |
| `Invocations.BufferGiven` | kernel/src/syscall.rs:189-199 | a thread that was given a buffer has the page that was named, as a copy that remembers no mapping |
| `Invocations.RegistersWritten` | kernel/src/syscall.rs:181-188 | each register of the thread is the word of the message at its place |
| `Invocations.ConfigsStay` | kernel/src/syscall.rs:71-311 | every call that keeps capabilities sound keeps the root CNodes of all threads sound |
| `Sessions.MadeIsNew` | kernel/src/capability/untyped.rs:135-151 | what a retype makes that fits its block lies where no CNode is and hangs in no address space |
| `Sessions.OwnedStep` | kernel/src/syscall.rs:71-311 | every invocation keeps ownership: CNodes and tables lie in memory handed out, untyped capabilities describe the unused parts of their own blocks, page capabilities and table entries are aligned; it is at most one step of memory |
| `Sessions.SessionOwned` | kernel/src/syscall.rs:71-311 | over every session of invocations in which retypes fit, no CNode is minted over and no circle is closed, capabilities stay sound, ownership stays, and the memory used is that of a run of the memory model |
| `Sessions.SessionSpaces` | kernel/src/syscall.rs:71-311 | over every such session that maps pages and tables where they belong, address spaces stay trees |
| `Sessions.HardwareFollows` | kernel/src/object/page_table.rs:79-93 | after every such session the hardware answers every access of user mode from the plain map |
| `Sessions.BootOwned` | kernel/src/init.rs:82-96 | ownership holds of the capabilities that booting makes for its blocks |
| `Sessions.SessionConfigs` | kernel/src/syscall.rs:71-311 | over every such session the root CNodes of threads stay sound, so that each can be looked up from |
| `Sessions.MappedPageAnswers` | kernel/src/syscall.rs:249-265 | after a page has been mapped in user space the hardware answers user mode at every offset with that page, exactly for the accesses asked for, under the condition of `RightsGranted` |
| `Derivation.Inverse` | kernel/src/object/cnode.rs:66-76 | next and previous links are inverse to each other |
| `Derivation.Acyclic` | kernel/src/object/cnode.rs:157-173 | following links never comes back |
| `Derivation.DerivationTree.AddRoot` | kernel/src/object/cnode.rs:142-147 | an entry without links is a list of its own |
| `Derivation.DerivationTree.Insert` | kernel/src/object/cnode.rs:157-162 | the new entry comes right after its parent; all else keeps its order |
| `Derivation.DerivationTree.Replace` | kernel/src/object/cnode.rs:164-173 | the new entry takes the place of the old one; all else keeps its order |
| `Derivation.SplicedStands` | kernel/src/object/cnode.rs:157-162 | the three links that splicing sets stand for the list with one entry more |
| `Derivation.ReplacedStands` | kernel/src/object/cnode.rs:164-173 | the links that replacing sets stand for the list with one entry exchanged |
| `Threads.HandleKeeps` | kernel/src/handler.rs:149-193 | handling any event from a state fit for user mode leads to a state that can be scheduled, also when a thread resumes itself with its link set; a tick never underflows the slice |
| `Threads.ScheduleKeeps` | kernel/src/scheduler.rs:53-83 | scheduling leads back to a state fit for user mode |
| `Threads.SendKeeps` | kernel/src/object/endpoint.rs:44-55 | sending keeps: free iff nobody waits, each thread in one queue, waiting threads blocked, run queue runnable |
| `Threads.RecvKeeps` | kernel/src/object/endpoint.rs:57-68 | the same for receiving |
| `Threads.SignalKeeps` | kernel/src/object/notification.rs:24-34 | signalling keeps it, and that pending signals and waiters never coexist |
| `Threads.WaitKeeps` | kernel/src/object/notification.rs:36-47 | the same for waiting |
| `Threads.ResumeExactly` | kernel/src/object/tcb.rs:27-30 | resuming any thread leads back to a state fit for user mode exactly if it waits nowhere and, if it is the one that runs, its link is set |
| `Threads.RunKeepsInvariant` | kernel/src/scheduler.rs:53-130 | over every run that does not stop the kernel, with callers that wait nowhere and resumes as in `ResumeExactly`: at each return to user mode the current thread is idle or has 1 to 20 ticks left, waiting threads are blocked and each in one place, all queues of endpoints and notifications are well formed, and no push to the run queue can reach them |
| `ThreadRuns.TrapMeets` | kernel/src/object/endpoint.rs:25-68 | one whole trap: what every thread has in a0 and a1, its badge, buffer and state, which messages, queue and side change, and that write-back and scheduling touch nothing else of it; only the caller's a0 changes |
| `ThreadRuns.TrapTimes` | kernel/src/scheduler.rs:53-130 | one whole trap: which thread it returns to, every thread's slice, and when the request for scheduling outlasts it |
| `ThreadRuns.AloneRenewed` | kernel/src/scheduler.rs:68-75 | a thread alone goes on with a full slice when its quantum ends, and has a full slice again after every further trap until it has to wait or makes another runnable |
| `ThreadRuns.MessageArrives` | kernel/src/object/endpoint.rs:44-68 | whichever side comes first, the receiver's register holds the badge of the capability the sender used and its buffer the sender's message, and no other buffer changes; none does if one of them has none |
| `ThreadRuns.MessagesInOrder` | kernel/src/object/endpoint.rs:44-68 | over every run the badges sent are, in order, those received followed by those still waiting: each send pairs with one receive, whichever side comes first |
| `ThreadRuns.WaitersAsked` | kernel/src/object/endpoint.rs:25-68 | over every run whoever waits at an endpoint last called for the side it names, with the badge it carries; senders and receivers never wait together |
| `ThreadRuns.ResultsStay` | kernel/src/syscall.rs:53-65 | over every run each thread finds in a0 the result of its own last call, whatever others do meanwhile |
| `ThreadRuns.WaiterFindsZero` | kernel/src/syscall.rs:58-64 | over every run a thread that blocked in a send, receive or wait finds 0 in a0 when it runs again, and until its next call |
| `ThreadRuns.NoSignalLost` | kernel/src/object/notification.rs:24-47 | over every run the or of values sent is the or of values delivered and pending, and pending bits are those sent since the last pick-up |
| `RunQueue.EndOfQuantum` | kernel/src/scheduler.rs:53-130 | the last tick of a quantum hands over to the next thread with a full slice and keeps the linked queue exact |
| `RunQueue.QuantaRotate` | kernel/src/scheduler.rs:53-130 | over the run of k quanta of ticks, current thread and queue rotate by k places |
| `RunQueue.RoundRobin` | kernel/src/scheduler.rs:53-130 | over every run of ticks, of n threads the i-th runs during the whole i-th quantum |
| `RunQueue.FullCircle` | kernel/src/scheduler.rs:53-130 | after n quanta the order is the original |
| `ThreadRuns.StopsExactly` | kernel/src/object/endpoint.rs:81-92 | from a state fit for user mode a trap stops the kernel exactly when it wakes one of several waiters or blocks a thread whose link is set |
| `ThreadRuns.BlockedGivesWay` | kernel/src/object/endpoint.rs:44-68 | from a state fit for user mode a thread that blocks does not run on, whatever else the run queue holds |
| `RunQueue.ScheduleShows` | kernel/src/scheduler.rs:53-83 | the right thread runs next; the run queue is right afterwards exactly if the popped thread's old link did no harm, and otherwise goes on from that link |
| `RunQueue.TrapOrdered` | kernel/src/handler.rs:149-278 | a whole trap from an ordered run queue: all is in order again exactly if the pop did no harm and no thread was resumed that was queued or running |
| `RunQueue.ResumeAppends` | kernel/src/object/tcb.rs:27-30 | resuming appends to the run queue exactly a thread that is neither queued nor running |
| `RunQueue.QueuedTwice` | kernel/src/object/tcb.rs:27-30 | resuming a queued thread makes the run queue a circle: however often it is popped, one of its threads is left |
| `RunQueue.RunQueueInOrder` | kernel/src/scheduler.rs:53-130 | over every run in which pops are exact and resumed threads are neither queued nor running, the run queue holds distinct runnable threads, in the order in which they became so, without the current one |
| `RunQueue.WokenRunsAtOnce` | kernel/src/scheduler.rs:53-83 | a thread that goes on because nobody else is queued keeps the request: the first thread it wakes runs before its call returns, with a full slice |
| `RunQueue.BlockedThreadQueued` | kernel/src/scheduler.rs:53-83 | an input: a run of two threads after which the run queue has a blocked thread next |
| `RunQueue.SelfResumedRunsOn` | kernel/src/syscall.rs:200-203 | a thread that resumes itself with a clear link and then receives is blocked, waits and still runs |
| `RunQueue.AloneResumesItself` | kernel/src/syscall.rs:200-203 | an input: one thread does so at endpoint 7 |
| `RunQueue.LinkedWaiterStops` | kernel/src/object/endpoint.rs:81-92 | a single waiter at the end of the run queue stops the kernel when it is woken after another thread was queued |
| `ThreadKernel.Kernel.Push` | kernel/src/list.rs:41-48 | a list that held q now holds q and the item, linked in that order, whatever link the item has; no other link changes |
| `ThreadKernel.Kernel.Pop` | kernel/src/list.rs:54-66 | takes the first; what is left shows the rest exactly if there is a second or the first has no link |
| `ThreadKernel.Kernel.PopFromQueue` | kernel/src/object/endpoint.rs:25-42 | a partner from the other side, or the endpoint now waited at from this side |
| `ThreadKernel.Kernel.EpSend` | kernel/src/capability/endpoint.rs:41-44 | implements the machine's send, stops included |
| `ThreadKernel.Kernel.EpRecv` | kernel/src/object/endpoint.rs:57-68 | implements the machine's receive |
| `ThreadKernel.Kernel.NtSignal` | kernel/src/object/notification.rs:24-34 | implements the machine's signal |
| `ThreadKernel.Kernel.NtWait` | kernel/src/object/notification.rs:36-47 | implements the machine's wait |
| `ThreadKernel.Kernel.SetIpcMsg` | kernel/src/object/tcb.rs:84-88 | the buffer is copied when both threads have one |
| `ThreadKernel.Kernel.Resume` | kernel/src/object/tcb.rs:27-30 | makes a thread runnable and queues it |
| `ThreadKernel.Kernel.TimerTick` | kernel/src/scheduler.rs:119-130 | implements the machine's tick |
| `ThreadKernel.Kernel.Schedule` | kernel/src/scheduler.rs:53-83 | implements the machine's scheduling, also when the popped thread's old link makes the run queue go wrong |
| `ThreadKernel.Kernel.HandleSyscall` | kernel/src/syscall.rs:53-65 | implements a system call with write-back: a0 is the result, a1 is left as the call set it |
| `ThreadKernel.Kernel.HandleTrap` | kernel/src/handler.rs:149-278 | one trap implements one step of the machine, from every state fit for user mode, and stops exactly when it does |

## Left out

- Trap entry and return in assembly, control registers, SBI calls, the UART, boot code and linker scripts.
- TLB, fences and `satp`; the kernel's own leaf mappings, beyond the kernel half of a root being a fixed copy.
- Device memory, which booting never makes; unmapping page tables and suspending threads, which the source leaves unimplemented; deleting capabilities, which does nothing.
- ELF header decoding: the loaders take the list of program headers with their file bytes.
- Debug output, error text, the print system calls and the demo programs.
- The addresses in derivation links: callers link a local entry and then move it into its slot; `Derivation` names entries by identity, and only the packing of the link word is modelled.
- Minting over the radix of a CNode: `Syscall.System.HandleInvocation` models it, but promises sound capabilities afterwards only when no CNode is minted over.
- Threads.RunKeepsInvariant: speaks of runs in which the thread that calls waits nowhere, and resumes are as in `Threads.ResumeExactly`; the kernel checks neither, and `RunQueue.BlockedThreadQueued` and `RunQueue.SelfResumedRunsOn` show how a waiting thread can come to run.
- Syscall.System.HandleInvocation: the registers written to a thread are kept with its configuration and not passed on to the thread machine; a message is 128 words.
- Syscall.OrderlyExactly: is silent about linking a table that hangs nowhere but is not zero, about unmapping through an entry above level 0, which would have to link the page itself as a table, and about retyping memory that hangs in an address space, which `Sessions.MadeIsNew` excludes for objects that fit.
- Syscall.System.InvokeUntyped: a new CNode whose address is already a CNode keeps the old slots, as in the source, which does not clear it; that it cannot be so for objects that fit is `Sessions.MadeIsNew`.
- Invocations.MapThenUnmap: is about addresses of user space below a root; where tables are no tree, the entry written may lie on its own path.
- Invocations.SendArrives: like the other four is about traps that do not stop the kernel; `ThreadRuns.StopsExactly` says which do.
- AddressSpaces.Spaces.MapPage: after a store above level 0 it is stated that no tree is left, and not what walks then find.
- Loader.BootLoader.MapProgram: assumes that the segment lies in the user half with three pages to spare and that its bytes are in the file; the kernel checks neither.
- UserLoader.ElfMapper.MapProgram: assumes the same of the segment, without the pages to spare, and that the tables for the scratch address are in place, as the first program makes sure of.
- PageTables.HardwareAgrees: is about user mode with MXR clear; that the hardware's setting of accessed and dirty bits changes an entry's flags is not part of the map.
- CSpace.LookupEntry: assumes that every CNode capability describes its CNode and has a radix below 64, and that no circle of one-slot CNodes exists; `CSpace.LookupsStopExactly` says that the loop ends only then, and `Syscall.System.HandleInvocation` which invocations keep it so.
- Handles.CopyHandle: assumes a CNode of more than one slot and a composed depth that fits a word; `CSpace.CompositionNeedsRadix` says what happens with one slot.
- Retyping.UntypedCap.Retype: assumes memory that is not a device and a free index that is a multiple of 8, as booting makes it and every retype keeps it.
- UserLoader.ElfMapper.MapPageWithTables: memory for new pages comes from a supply of consecutive pages, which is what `Retyping.PageAfterPage` says an aligned block of untyped memory gives; slots past the cursor are taken to be empty.
- Memory.StepKeeps: a retype is a step only if its objects fit their block; `Retyping.InsideExactly` says when they do.
