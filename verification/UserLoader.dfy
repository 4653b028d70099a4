/**
 The first program's own loader.  It fills another address space and cannot write there:
 each page is also mapped, for a moment, at a scratch address of the loader itself.
 The main result: after every page, however it ends, the scratch address is free again,
 so the next page can use it; a segment that is loaded is found where its header says,
 because the kernel refuses to map anything at an address that is not aligned to a page; and
 a page is loaded exactly if its addresses are aligned and free and there is room for it and its tables.
 */
module UserLoader {
  import opened Kinds
  import opened Bits
  import opened Packing
  import opened PageTables
  import opened AddressSpaces
  import opened Loader

  /** The addresses at which the kernel maps. */
  predicate Aligned(vaddr: nat) { vaddr % PAGE_SIZE == 0 }

  class ElfMapper {
    const spaces: Spaces
    /** Page contents by frame. */
    var frames: Frames
    /** The loader's own root, the root being filled, and the scratch address in the former. */
    const own: nat
    const target: nat
    const scratch: nat
    /** Fresh memory that retyping hands out, page by page. */
    var supply: nat
    const limit: nat
    /** Slots of the loader's CNode: the next one and how many there are. */
    var cursor: nat
    const slots: nat

    constructor (spaces: Spaces, frames: Frames, own: nat, target: nat, scratch: nat, supply: nat, limit: nat, slots: nat)
      ensures this.spaces == spaces && this.frames == frames && this.own == own && this.target == target
      ensures this.scratch == scratch && this.supply == supply && this.limit == limit
      ensures cursor == 0 && this.slots == slots
    {
      this.spaces, this.frames, this.own, this.target := spaces, frames, own, target;
      this.scratch, this.supply, this.limit := scratch, supply, limit;
      this.cursor, this.slots := 0, slots;
    }

    ghost predicate Valid()
      reads this, spaces
    {
      && Ready()
      && (forall t :: t in spaces.tables ==> t < supply)
      && (forall f :: f in frames ==> f < supply)
    }

    ghost predicate Ready()
      reads spaces
    {
      && spaces.Valid() && IsRootTable(spaces.level, own) && IsRootTable(spaces.level, target) && own != target
      && scratch < USER_TOP && ScratchFree()
    }

    /** The tables for the scratch address are in place and nothing is mapped there. */
    ghost predicate ScratchFree()
      requires Shape(spaces.tables)
      reads spaces
    {
      Reached(spaces.tables, own, Indices(scratch)) == 0 && (own, Indices(scratch)) !in spaces.View()
    }

    ghost function View(): (v: View)
      requires Shape(spaces.tables)
      reads spaces
    {
      spaces.View()
    }

    method GetSlot() returns (r: Result<()>)
      modifies this`cursor
      ensures r == if old(cursor) < slots then Ok(()) else Err(NoEnoughSlot, 0)
      ensures cursor == if r.Ok? then old(cursor) + 1 else old(cursor)
    {
      if slots <= cursor {
        return Err(NoEnoughSlot, 0);
      }
      cursor := cursor + 1;
      return Ok(());
    }

    /** What retyping one page gives: the kernel refuses to fill the last slot of a CNode. */
    function Retyped(): (r: Result<nat>)
      reads this
      ensures !r.Halt?
    {
      if cursor >= slots then Err(NoEnoughSlot, 0) else if cursor + 1 == slots then Err(InvalidOperation, 0)
      else if limit < supply + 4096 then Err(NoMemory, 0) else Ok(supply)
    }

    /** Slots and memory for n objects of one page each; the last slot of a CNode cannot be retyped into. */
    predicate Room(n: nat)
      reads this
    {
      cursor + n < slots && supply + 4096 * n <= limit
    }

    /** Not one more can be retyped. */
    predicate Exhausted()
      reads this
    {
      Retyped().Err?
    }

    /** How many tables are missing for an address of the target. */
    ghost function Missing(vaddr: nat): (n: nat)
      requires Shape(spaces.tables)
      reads spaces
      ensures n <= 3
    {
      Reached(spaces.tables, target, Indices(vaddr))
    }

    /** Take a slot and retype one page of memory into a fresh, zero page. */
    method RetypePage() returns (r: Result<nat>)
      requires Valid()
      modifies this`supply, this`cursor
      ensures Valid() && !r.Halt? && r == old(Retyped()) && (r.Ok? <==> old(Room(1))) && (!r.Ok? ==> Exhausted())
      ensures supply == if r.Ok? then old(supply) + 4096 else old(supply)
      ensures r.Ok? ==> cursor == old(cursor) + 1 < slots
      ensures r.Ok? ==> r.value !in frames && r.value !in spaces.tables && r.value < supply
    {
      var slot := GetSlot();
      if !slot.Ok? {
        return Err(slot.kind, slot.detail);
      }
      if cursor >= slots {
        return Err(InvalidOperation, 0);
      }
      if limit < supply + 4096 {
        return Err(NoMemory, 0);
      }
      r := Ok(supply);
      supply := supply + 4096;
    }

    /** Link a fresh table in the target, unless the address is not aligned or the walk is complete. */
    method LinkTable(t: nat, vaddr: nat) returns (level: Option<nat>)
      requires Valid() && vaddr < USER_TOP && t !in spaces.tables && t < supply
      modifies spaces
      ensures Valid() && View() == old(View())
      ensures var l := Reached(old(spaces.tables), target, Indices(vaddr));
              if l > 0 && Aligned(vaddr)
              then level == Some(l - 1) && Reached(spaces.tables, target, Indices(vaddr)) == l - 1
              else level == None && (l == 0 ==> Reached(spaces.tables, target, Indices(vaddr)) == 0)
    {
      UserAddress(vaddr);
      UserAddress(scratch);
      if !Aligned(vaddr) {
        spaces.AddTable(t);
        return None;
      }
      var r := spaces.MapFreshTable(t, target, vaddr);
      StillComplete(old(spaces.tables), spaces.tables, old(spaces.level), own, Indices(scratch));
      StillComplete(old(spaces.tables), spaces.tables, old(spaces.level), target, Indices(vaddr));
      level := if r.Ok? then Some(r.value) else None;
    }

    /** Retype a table and try to link it; report the level reached, if it was linked. */
    method AddTable(vaddr: nat) returns (r: Result<Option<nat>>)
      requires Valid() && vaddr < USER_TOP
      modifies this`supply, this`cursor, spaces
      ensures Valid() && View() == old(View()) && !r.Halt? && (r.Ok? <==> old(Room(1))) && (!r.Ok? ==> Exhausted())
      ensures r.Ok? ==> supply == old(supply) + 4096 && cursor == old(cursor) + 1 < slots
      ensures r.Ok? ==>
                var l := Reached(old(spaces.tables), target, Indices(vaddr));
                if l > 0 && Aligned(vaddr)
                then r.value == Some(l - 1) && Reached(spaces.tables, target, Indices(vaddr)) == l - 1
                else r.value == None && (l == 0 ==> Reached(spaces.tables, target, Indices(vaddr)) == 0)
    {
      var page := RetypePage();
      if !page.Ok? {
        return Err(page.kind, page.detail);
      }
      var level := LinkTable(page.value, vaddr);
      r := Ok(level);
    }

    /** Add tables until one is linked at level 0.  That succeeds exactly if the address is aligned, a table is missing
        and there are slots and memory for all that are; otherwise the loop ends when slots or memory do. */
    method MapPageTables(vaddr: nat) returns (r: Result<()>)
      requires Valid() && vaddr < USER_TOP
      modifies this`supply, this`cursor, spaces
      ensures Valid() && View() == old(View()) && !r.Halt?
      ensures r.Ok? <==> Aligned(vaddr) && old(Missing(vaddr)) > 0 && old(Room(Missing(vaddr)))
      ensures r.Ok? ==> Missing(vaddr) == 0 && supply == old(supply) + 4096 * old(Missing(vaddr)) && cursor == old(cursor) + old(Missing(vaddr))
      ensures !r.Ok? ==> Exhausted()
    {
      ghost var missing := Missing(vaddr);
      ghost var able := missing > 0 && Aligned(vaddr);
      ghost var l := missing;
      while true
        invariant Valid() && View() == old(View())
        invariant able ==> Reached(spaces.tables, target, Indices(vaddr)) == l && 0 < l <= missing
        invariant able ==> supply == old(supply) + 4096 * (missing - l) && cursor == old(cursor) + (missing - l)
        invariant !able ==> !Aligned(vaddr) || Reached(spaces.tables, target, Indices(vaddr)) == 0
        decreases slots - cursor
      {
        var level := AddTable(vaddr);
        if !level.Ok? {
          return Err(level.kind, level.detail);
        }
        if level.value == Some(0) {
          return Ok(());
        }
        if able { l := l - 1; }
      }
    }

    /** Ask the kernel to map a page, which it refuses at an address that is not aligned. */
    method MapCall(frame: nat, root: nat, vaddr: nat, flags: nat) returns (cap: MemCap, r: Result<()>)
      requires spaces.InTree(root, vaddr)
      modifies spaces`tables
      ensures spaces.Valid() && spaces.tables.Keys == old(spaces.tables).Keys && SameReach(old(spaces.tables), spaces.tables, spaces.level)
      ensures r == var l, key := Reached(old(spaces.tables), root, Indices(vaddr)), (root, Indices(vaddr));
                   if !Aligned(vaddr) then Err(NotAligned, PAGE_SIZE)
                   else if l > 0 then Err(PageTableNotMappedYet, l)
                   else if key in old(spaces.View()) then Err(VaddressAlreadyMapped, 0)
                   else Ok(())
      ensures spaces.tables == if r.Ok? then StoreAt(old(spaces.tables), root, Indices(vaddr), PageEntry(frame, flags)) else old(spaces.tables)
      ensures spaces.View() == if r.Ok? then old(spaces.View())[(root, Indices(vaddr)) := PageEntry(frame, flags)] else old(spaces.View())
      ensures r.Ok? ==> cap == MemCap(frame, SetMapped(vaddr))
    {
      if !Aligned(vaddr) {
        return MemCap(frame, 0), Err(NotAligned, PAGE_SIZE);
      }
      cap, r := spaces.MapFreshPage(frame, root, vaddr, flags);
    }

    /** Try to map a frame in the target. */
    method TryMap(frame: nat, vaddr: nat, flags: nat) returns (cap: MemCap, r: Result<()>)
      requires Valid() && vaddr < USER_TOP
      modifies spaces
      ensures Valid() && !r.Halt? && Missing(vaddr) == old(Missing(vaddr))
      ensures !r.Ok? ==> View() == old(View())
      ensures !Aligned(vaddr) ==> r == Err(NotAligned, PAGE_SIZE)
      ensures Aligned(vaddr) ==> (r.Err? && r.kind == PageTableNotMappedYet <==> old(Missing(vaddr)) > 0)
      ensures r.Ok? <==> Aligned(vaddr) && old(Missing(vaddr)) == 0 && (target, Indices(vaddr)) !in old(View())
      ensures r.Ok? ==>
                && cap == MemCap(frame, SetMapped(vaddr))
                && (target, Indices(vaddr)) !in old(View())
                && View() == old(View())[(target, Indices(vaddr)) := PageEntry(frame, flags)]
    {
      PathNumberIs(vaddr);
      PathNumberIs(scratch);
      cap, r := MapCall(frame, target, vaddr, flags);
    }

    /** Map a fresh page in the target, adding the tables it needs.  That succeeds exactly if the address is aligned and
        free and there are slots and memory for the tables. */
    method MapWithTables(frame: nat, vaddr: nat, flags: nat) returns (r: Result<MemCap>)
      requires Valid() && vaddr < USER_TOP
      modifies this`supply, this`cursor, spaces
      ensures Valid() && !r.Halt?
      ensures r.Ok? <==>
              Aligned(vaddr) && (target, Indices(vaddr)) !in old(View()) && (old(Missing(vaddr)) > 0 ==> old(Room(Missing(vaddr))))
      ensures r.Ok? ==> supply == old(supply) + 4096 * old(Missing(vaddr)) && cursor == old(cursor) + old(Missing(vaddr))
      ensures !r.Ok? ==> Exhausted() || !Aligned(vaddr) || (target, Indices(vaddr)) in old(View())
      ensures !r.Ok? ==> View() == old(View())
      ensures !Aligned(vaddr) || (target, Indices(vaddr)) in old(View()) ==> r == Err(InvalidOperation, 0)
      ensures r.Ok? ==>
                && r.value == MemCap(frame, SetMapped(vaddr))
                && (target, Indices(vaddr)) !in old(View())
                && View() == old(View())[(target, Indices(vaddr)) := PageEntry(frame, flags)]
    {
      var cap, m := TryMap(frame, vaddr, flags);
      if m.Ok? {
        return Ok(cap);
      }
      if m.kind != PageTableNotMappedYet {
        return Err(InvalidOperation, 0);
      }
      NotBound(spaces.tables, spaces.level, target, Indices(vaddr));
      var filled := MapPageTables(vaddr);
      if !filled.Ok? {
        return Err(filled.kind, filled.detail);
      }
      cap, m := TryMap(frame, vaddr, flags);
      r := Ok(cap);
    }

    /** Retype a page and map it in the target, with the tables it needs.  That succeeds exactly if the address is aligned
        and free and there are slots and memory for the page and the tables. */
    method MapPageWithTables(vaddr: nat, flags: nat) returns (r: Result<MemCap>)
      requires Valid() && vaddr < USER_TOP
      modifies this, spaces
      ensures Valid() && !r.Halt?
      ensures r.Ok? <==> Aligned(vaddr) && (target, Indices(vaddr)) !in old(View()) && old(Room(1 + Missing(vaddr)))
      ensures r.Ok? ==> supply == old(supply) + 4096 * (1 + old(Missing(vaddr))) && cursor == old(cursor) + 1 + old(Missing(vaddr))
      ensures !r.Ok? ==> Exhausted() || !Aligned(vaddr) || (target, Indices(vaddr)) in old(View())
      ensures !r.Ok? ==> View() == old(View())
      ensures !Aligned(vaddr) || (target, Indices(vaddr)) in old(View()) ==> r == Refusal(old(Retyped()))
      ensures r.Ok? ==>
                && r.value == MemCap(r.value.addr, SetMapped(vaddr)) && r.value.addr !in old(frames)
                && (target, Indices(vaddr)) !in old(View())
                && View() == old(View())[(target, Indices(vaddr)) := PageEntry(r.value.addr, flags)]
                && frames == old(frames)[r.value.addr := ZeroPage()]
    {
      var page := RetypePage();
      if !page.Ok? {
        return Err(page.kind, page.detail);
      }
      frames := frames[page.value := ZeroPage()];
      r := MapWithTables(page.value, vaddr, flags);
    }

    /** Map a frame at the scratch address, where there is room for it. */
    method MapScratch(frame: nat) returns (r: Result<()>)
      requires Ready()
      modifies spaces`tables
      ensures r == if Aligned(scratch) then Ok(()) else Err(NotAligned, PAGE_SIZE)
      ensures !r.Ok? ==> spaces.tables == old(spaces.tables)
      ensures r.Ok? ==>
                && spaces.Valid()
                && spaces.tables == StoreAt(old(spaces.tables), own, Indices(scratch), PageEntry(frame, PAGE_R + PAGE_W + PAGE_U))
                && spaces.View() == old(spaces.View())[(own, Indices(scratch)) := PageEntry(frame, PAGE_R + PAGE_W + PAGE_U)]
                && Reached(spaces.tables, own, Indices(scratch)) == 0
    {
      PathNumberIs(scratch);
      var cap;
      cap, r := MapCall(frame, own, scratch, PAGE_R + PAGE_W + PAGE_U);
    }

    /** Write to the scratch address: the frame that is bound there changes. */
    method WriteScratch(frame: nat, file: seq<nat>, offset: nat, remaining: nat)
      requires spaces.Valid() && IsRootTable(spaces.level, own) && UserHalf(scratch)
      requires (own, Indices(scratch)) in spaces.View() && spaces.View()[(own, Indices(scratch))].addr == frame
      requires frame in frames && |frames[frame]| == 4096 && offset + remaining <= |file|
      modifies this`frames
      ensures frames == old(frames)[frame := Overwrite(old(frames)[frame], file, offset, remaining)]
    {
      ScratchBinding(spaces.tables, spaces.level, own, Indices(scratch));
      var b := Lookup(spaces.tables, own, Indices(scratch));
      frames := frames[b.value.addr := Overwrite(frames[b.value.addr], file, offset, remaining)];
    }

    /** Unmap the scratch address again: the tables are what they were. */
    method UnmapScratch(frame: nat, ghost before: Tables) returns (r: Result<()>)
      requires spaces.InTree(own, scratch) && Reached(spaces.tables, own, Indices(scratch)) == 0
      requires (own, Indices(scratch)) in spaces.View() && spaces.View()[(own, Indices(scratch))].addr == frame
      requires Tree(before, spaces.level, spaces.kernelRoot) && TableAt(before, own, Indices(scratch), 0).Some?
      requires Lookup(before, own, Indices(scratch)).None?
      requires spaces.tables == StoreAt(before, own, Indices(scratch), PageEntry(frame, PAGE_R + PAGE_W + PAGE_U))
      modifies spaces`tables
      ensures r == Ok(()) && spaces.tables == before
    {
      r := spaces.UnmapMappedPage(frame, own, scratch);
      MapUnmapRestores(before, spaces.level, spaces.kernelRoot, own, Indices(scratch), PageEntry(frame, PAGE_R + PAGE_W + PAGE_U));
    }

    /** Copy a part of the file into a frame through the scratch address: map, write, unmap.
        It succeeds exactly if that address is aligned, and leaves every table as it was. */
    method CopyThroughScratch(frame: nat, file: seq<nat>, offset: nat, remaining: nat) returns (r: Result<()>)
      requires Ready() && frame in frames && |frames[frame]| == 4096 && offset + remaining <= |file|
      modifies this`frames, spaces`tables
      ensures Ready() && spaces.tables == old(spaces.tables)
      ensures r == if Aligned(scratch) then Ok(()) else Err(NotAligned, PAGE_SIZE)
      ensures frames == if r.Ok? then old(frames)[frame := Overwrite(old(frames)[frame], file, offset, remaining)] else old(frames)
    {
      PathNumberIs(scratch);
      ScratchTable(spaces.tables, spaces.level, own, Indices(scratch));
      r := MapScratch(frame);
      if !r.Ok? {
        return;
      }
      WriteScratch(frame, file, offset, remaining);
      r := UnmapScratch(frame, old(spaces.tables));
    }

    /** Load one page of a segment into the target.  That succeeds exactly if the address is aligned and free, there are
        slots and memory for the page and its tables, and the scratch address is aligned if there is something to
        copy; a copy takes one slot more, which there always is. */
    method MapPage(vaddr: nat, file: seq<nat>, offset: nat, remaining: nat, flags: nat) returns (r: Result<()>, frame: nat)
      requires Valid() && vaddr < USER_TOP && (remaining == 0 || offset + remaining <= |file|)
      modifies this, spaces
      ensures Valid() && !r.Halt?
      ensures r.Ok? <==> Aligned(vaddr) && (target, Indices(vaddr)) !in old(View()) && old(Room(1 + Missing(vaddr))) && (remaining == 0 || Aligned(scratch))
      ensures r.Ok? ==>
                && supply == old(supply) + 4096 * (1 + old(Missing(vaddr)))
                && cursor == old(cursor) + 1 + old(Missing(vaddr)) + if remaining == 0 then 0 else 1
      ensures !r.Ok? ==>
                Exhausted() || !Aligned(vaddr) || (target, Indices(vaddr)) in old(View()) || (remaining > 0 && !Aligned(scratch))
      ensures !Aligned(vaddr) || (target, Indices(vaddr)) in old(View()) ==> r == Refusal(old(Retyped())) && View() == old(View())
      ensures r.Ok? ==>
                && frame !in old(frames) && (target, Indices(vaddr)) !in old(View())
                && View() == old(View())[(target, Indices(vaddr)) := PageEntry(frame, flags)]
                && frames == old(frames)[frame := PageContent(file, offset, remaining)]
    {
      frame := 0;
      var page := MapPageWithTables(vaddr, flags);
      if !page.Ok? {
        return Err(page.kind, page.detail), 0;
      }
      frame := page.value.addr;
      r := FillPage(frame, file, offset, remaining);
      if r.Ok? {
        UpdateTwice(old(frames), frame, ZeroPage(), PageContent(file, offset, remaining));
      }
    }

    /** Copy the next part of the file, if any is left, into a page of zeros; the copy of its capability
        takes a slot. */
    method FillPage(frame: nat, file: seq<nat>, offset: nat, remaining: nat) returns (r: Result<()>)
      requires Ready() && frame in frames && frames[frame] == ZeroPage() && (remaining == 0 || offset + remaining <= |file|)
      modifies this`frames, this`cursor, spaces`tables
      ensures Ready() && !r.Halt? && spaces.tables == old(spaces.tables)
      ensures r.Ok? <==> remaining == 0 || (old(cursor) < slots && Aligned(scratch))
      ensures r.Ok? ==> cursor == old(cursor) + if remaining == 0 then 0 else 1
      ensures frames == if r.Ok? then old(frames)[frame := PageContent(file, offset, remaining)] else old(frames)
    {
      if remaining == 0 {
        return Ok(());
      }
      var slot := GetSlot();
      if !slot.Ok? {
        return Err(slot.kind, slot.detail);
      }
      r := CopyThroughScratch(frame, file, offset, remaining);
    }

    /** Slots and memory for n pages, each with three tables and a copy. */
    predicate Plenty(n: nat)
      reads this
    {
      cursor + 5 * n < slots && supply + 16384 * n <= limit
    }

    /** Load page i of a segment whose first i pages have been loaded. */
    method LoadNext(vaddr: nat, file: seq<nat>, ghost memSize: nat, ghost fileSize: nat, flags: nat, i: nat, remaining: nat,
                    ghost view0: View, ghost frames0: Frames) returns (r: Result<()>)
      requires Valid() && fileSize <= |file| && i < PagesFor(memSize) && vaddr + i * 4096 + 4096 <= USER_TOP
      requires Progress(view0, frames0, View(), frames, target, vaddr, file, fileSize, flags, i)
      requires remaining == if i * 4096 < fileSize then fileSize - i * 4096 else 0
      modifies this, spaces
      ensures Valid() && !r.Halt?
      ensures r.Ok? ==> Aligned(vaddr) && Progress(view0, frames0, View(), frames, target, vaddr, file, fileSize, flags, i + 1)
      ensures r.Ok? ==> cursor <= old(cursor) + 5 && supply <= old(supply) + 16384
      ensures !r.Ok? ==> (Exhausted() && !old(Plenty(1))) || Hopeless(view0, target, scratch, vaddr, memSize, fileSize)
      ensures i == 0 && !Aligned(vaddr) ==> r == Refusal(old(Retyped())) && View() == old(View())
    {
      var offset := PAGE_SIZE * i;
      var va := vaddr + offset;
      AlignedPage(vaddr, i, va);
      ghost var enough := Room(1 + Missing(va));
      var frame;
      r, frame := MapPage(va, file, offset, remaining, flags);
      if r.Ok? {
        ProgressStep(view0, frames0, old(View()), old(frames), target, vaddr, file, fileSize, flags, i, frame, remaining, va, offset);
      } else if enough || !Exhausted() {
        FailsFor(view0, frames0, old(View()), old(frames), target, scratch, vaddr, file, memSize, fileSize, flags, i, va, remaining);
      }
    }

    /** Load one segment into the target.  If there is anything to load, it succeeds only at an aligned
        address, and then every byte of the segment reads as its image there; elsewhere it fails at the
        first page and maps nothing.  It fails only if slots or memory run out, a page of the segment is taken,
        or the address, or the scratch address when there is something to copy, is not aligned; five slots and
        four pages of memory for each page are always enough.  Whatever happens the scratch address is free. */
    method MapProgram(vaddr: nat, file: seq<nat>, memSize: nat, fileSize: nat, flags: nat) returns (r: Result<()>)
      requires Valid() && fileSize <= |file| && vaddr + PagesFor(memSize) * 4096 <= USER_TOP
      modifies this, spaces
      ensures Valid() && !r.Halt?
      ensures r.Ok? ==>
                && Progress(old(View()), old(frames), View(), frames, target, vaddr, file, fileSize, flags, PagesFor(memSize))
                && (memSize > 0 ==> Aligned(vaddr))
                && ReadsAsImage(View(), frames, target, vaddr, file, fileSize, memSize)
      ensures memSize > 0 && !Aligned(vaddr) ==> r == Refusal(old(Retyped())) && View() == old(View())
      ensures !r.Ok? ==> Exhausted() || Hopeless(old(View()), target, scratch, vaddr, memSize, fileSize)
      ensures !Hopeless(old(View()), target, scratch, vaddr, memSize, fileSize) && old(Plenty(PagesFor(memSize))) ==> r.Ok?
    {
      AlignUpPages(memSize);
      var remaining := fileSize;
      var pageNum := AlignUp(memSize, PAGE_SIZE) / PAGE_SIZE;
      var i := 0;
      while i < pageNum
        invariant 0 <= i <= pageNum == PagesFor(memSize)
        invariant Valid()
        invariant Progress(old(View()), old(frames), View(), frames, target, vaddr, file, fileSize, flags, i)
        invariant remaining == if i * 4096 < fileSize then fileSize - i * 4096 else 0
        invariant i == 0 ==> old(Retyped()) == Retyped() && View() == old(View())
        invariant i > 0 ==> Aligned(vaddr)
        invariant cursor <= old(cursor) + 5 * i && supply <= old(supply) + 16384 * i
      {
        r := LoadNext(vaddr, file, memSize, fileSize, flags, i, remaining, old(View()), old(frames));
        if !r.Ok? {
          return;
        }
        remaining := if remaining < PAGE_SIZE then 0 else remaining - PAGE_SIZE;
        i := i + 1;
      }
      LoadedAtAddress(View(), frames, target, vaddr, file, fileSize, memSize);
      r := Ok(());
    }
  }

  /** A segment cannot be loaded, whatever there is of slots and memory: an address is not aligned, or a page taken. */
  ghost predicate Hopeless(view: View, target: nat, scratch: nat, vaddr: nat, memSize: nat, fileSize: nat)
  {
    memSize > 0 && (!Aligned(vaddr) || (fileSize > 0 && !Aligned(scratch)) || Collides(view, target, vaddr, PagesFor(memSize)))
  }

  lemma {:induction false} AlignedPage(vaddr: nat, i: nat, va: nat)
    requires va == vaddr + 4096 * i
    ensures (Aligned(va) <==> Aligned(vaddr)) && (i == 0 ==> va == vaddr)
  {
    DivModUnique(va, 4096, vaddr / 4096 + i, vaddr % 4096);
  }

  /** What one page fails for the segment fails for. */
  lemma {:induction false} FailsFor(view0: View, frames0: Frames, view: View, frames: Frames, target: nat, scratch: nat, vaddr: nat, file: seq<nat>,
                                    memSize: nat, fileSize: nat, flags: nat, i: nat, va: nat, remaining: nat)
    requires i < PagesFor(memSize) && va == vaddr + i * 4096 && fileSize <= |file| && vaddr + i * 4096 + 4096 <= USER_TOP
    requires Progress(view0, frames0, view, frames, target, vaddr, file, fileSize, flags, i)
    requires remaining == if i * 4096 < fileSize then fileSize - i * 4096 else 0
    requires !Aligned(va) || (target, Indices(va)) in view || (remaining > 0 && !Aligned(scratch))
    ensures Hopeless(view0, target, scratch, vaddr, memSize, fileSize)
  {
    if (target, Indices(va)) in view {
      CollidesWithOld(view0, frames0, view, frames, target, vaddr, file, fileSize, flags, i, va);
    }
  }

  /** How a page that cannot be mapped at its address is refused, unless retyping failed before. */
  function Refusal<T>(page: Result<nat>): (r: Result<T>)
    requires !page.Halt?
  {
    if page.Err? then Err(page.kind, page.detail) else Err(InvalidOperation, 0)
  }

  lemma {:induction false} UserAddress(vaddr: nat)
    requires vaddr < USER_TOP
    ensures UserHalf(vaddr)
  {
    PathNumberIs(vaddr);
  }

  /** A walk that was complete still is. */
  lemma {:induction false} StillComplete(ts: Tables, ts': Tables, lv: map<nat, nat>, root: nat, ix: seq<nat>)
    requires Shape(ts) && Shape(ts') && MoreReach(ts, ts', lv) && IsRootTable(lv, root) && UserPath(ix)
    ensures Reached(ts, root, ix) == 0 ==> Reached(ts', root, ix) == 0
  {
  }

  lemma {:induction false} ScratchTable(ts: Tables, lv: map<nat, nat>, root: nat, ix: seq<nat>)
    requires Shape(ts) && IsRootTable(lv, root) && root in ts && UserPath(ix) && Reached(ts, root, ix) == 0 && (root, ix) !in Bindings(ts, lv)
    ensures TableAt(ts, root, ix, 0).Some? && Lookup(ts, root, ix).None?
  {
    ReachedTable(ts, root, ix);
  }

  lemma {:induction false} ScratchBinding(ts: Tables, lv: map<nat, nat>, root: nat, ix: seq<nat>)
    requires Shape(ts) && IsRootTable(lv, root) && UserPath(ix) && (root, ix) in Bindings(ts, lv)
    ensures Lookup(ts, root, ix) == Some(Bindings(ts, lv)[(root, ix)])
  {
  }
}
