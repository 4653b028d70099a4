/**
 The kernel's program loader: allocate and map the pages of every loadable segment,
 filling in missing page tables on the way, and copy the file contents.  The main
 result reads the loaded program back through the page tables: a load that does not
 stop the kernel leaves the image of every segment, the file's bytes and then zeros,
 from the start of its first page on.  So a segment is found where its header says
 exactly if that address is aligned to a page.
 */
module Loader {
  import opened Kinds
  import opened Bits
  import opened Packing
  import opened PageTables
  import opened AddressSpaces
  import opened Boot

  type View = imap<(nat, seq<nat>), Pte>
  type Frames = map<nat, seq<nat>>

  const USER_TOP: nat := 0x8000_0000_0000

  /** The byte at a virtual address, read through the bindings of `root`. */
  ghost function Read(view: View, frames: Frames, root: nat, vaddr: nat): (r: Option<nat>)
  {
    var key := (root, Indices(vaddr));
    if key in view && view[key].addr in frames && |frames[view[key].addr]| == 4096
    then Some(frames[view[key].addr][vaddr % 4096])
    else None
  }

  function PageFloor(vaddr: nat): (r: nat)
    ensures r <= vaddr < r + 4096
  {
    vaddr - vaddr % 4096
  }

  function PagesFor(size: nat): (n: nat)
    ensures n * 4096 - 4096 < size <= n * 4096 || (size == 0 && n == 0)
  {
    (size + 4095) / 4096
  }

  /** Byte k of a segment's memory image: file contents, then zeros. */
  function ImageByte(file: seq<nat>, fileSize: nat, k: nat): (b: nat)
    requires fileSize <= |file|
  {
    if k < fileSize then file[k] else 0
  }

  /** The page number spelled by a path. */
  function PathNumber(ix: seq<nat>): (n: nat)
    requires IsPath(ix)
  {
    ix[0] + 512 * (ix[1] + 512 * (ix[2] + 512 * ix[3]))
  }

  lemma {:induction false} PathNumberIs(vaddr: nat)
    requires vaddr < USER_TOP
    ensures PathNumber(Indices(vaddr)) == vaddr / 4096
    ensures UserHalf(vaddr)
  {
    FourDigits(vaddr / 4096);
    SmallMod(vaddr / 4096, 0x10_0000_0000);
    LowHalfIsUser(vaddr);
  }

  /** Below the top of user space a path and a page determine each other. */
  lemma {:induction false} PathIsPage(a: nat, b: nat)
    requires a < USER_TOP && b < USER_TOP
    ensures Indices(a) == Indices(b) <==> a / 4096 == b / 4096
  {
    PathNumberIs(a);
    PathNumberIs(b);
    DigitsDetermine(Vpn(a, 0), Vpn(a, 1), Vpn(a, 2), Vpn(a, 3), Vpn(b, 0), Vpn(b, 1), Vpn(b, 2), Vpn(b, 3));
  }

  /** The first n pages from `base` read as the image. */
  ghost predicate Loaded(view: View, frames: Frames, root: nat, base: nat, file: seq<nat>, fileSize: nat, n: nat)
    requires fileSize <= |file|
  {
    forall va :: base <= va < base + n * 4096 ==>
      Read(view, frames, root, va) == Some(ImageByte(file, fileSize, va - base))
  }

  /** Nothing outside the pages [lo, hi) of `root` has changed. */
  ghost predicate OnlyPages(view: View, frames: Frames, view': View, frames': Frames, root: nat, lo: nat, hi: nat)
  {
    && (forall key :: key in view ==> key in view' && view'[key] == view[key])
    && (forall key :: key in view' && key !in view ==>
          key.0 == root && IsPath(key.1) && lo <= PathNumber(key.1) < hi)
    && (forall f :: f in frames ==> f in frames' && frames'[f] == frames[f])
  }

  /** What was readable stays readable with the same value. */
  lemma {:induction false} StillReads(view: View, frames: Frames, view': View, frames': Frames, root: nat, lo: nat, hi: nat, r: nat, va: nat)
    requires OnlyPages(view, frames, view', frames', root, lo, hi) && Read(view, frames, r, va).Some?
    ensures Read(view', frames', r, va) == Read(view, frames, r, va)
  {
  }

  lemma {:induction false} StillLoaded(view: View, frames: Frames, view': View, frames': Frames, root: nat, lo: nat, hi: nat,
                                       base: nat, file: seq<nat>, fileSize: nat, n: nat)
    requires fileSize <= |file| && OnlyPages(view, frames, view', frames', root, lo, hi)
    requires Loaded(view, frames, root, base, file, fileSize, n)
    ensures Loaded(view', frames', root, base, file, fileSize, n)
  {
    forall va | base <= va < base + n * 4096
      ensures Read(view', frames', root, va) == Some(ImageByte(file, fileSize, va - base))
    {
      StillReads(view, frames, view', frames', root, lo, hi, root, va);
    }
  }

  /** Reading after a fresh frame has been bound at a path that was free. */
  lemma {:induction false} ReadAfterBind(view: View, frames: Frames, root: nat, ix: seq<nat>, frame: nat, flags: nat, content: seq<nat>, va: nat)
    requires frame !in frames && (root, ix) !in view && |content| == 4096
    ensures var view', frames' := view[(root, ix) := Pte(frame, flags)], frames[frame := content];
            && (Indices(va) == ix ==> Read(view', frames', root, va) == Some(content[va % 4096]))
            && (Indices(va) != ix && Read(view, frames, root, va).Some? ==>
                  Read(view', frames', root, va) == Read(view, frames, root, va))
  {
  }

  /** One more page: a fresh frame holding the next part of the image, bound at its page. */
  lemma {:induction false} LoadPage(view: View, frames: Frames, root: nat, base: nat, file: seq<nat>, fileSize: nat, n: nat,
                                    frame: nat, flags: nat, content: seq<nat>)
    requires fileSize <= |file| && base % 4096 == 0 && base + n * 4096 + 4096 <= USER_TOP
    requires Loaded(view, frames, root, base, file, fileSize, n)
    requires frame !in frames && (root, Indices(base + n * 4096)) !in view
    requires |content| == 4096 && forall j :: 0 <= j < 4096 ==> content[j] == ImageByte(file, fileSize, n * 4096 + j)
    ensures Loaded(view[(root, Indices(base + n * 4096)) := Pte(frame, flags)], frames[frame := content],
                   root, base, file, fileSize, n + 1)
  {
    var ix := Indices(base + n * 4096);
    var view', frames' := view[(root, ix) := Pte(frame, flags)], frames[frame := content];
    forall va | base <= va < base + (n + 1) * 4096
      ensures Read(view', frames', root, va) == Some(ImageByte(file, fileSize, va - base))
    {
      LoadPageByte(view, frames, root, base, file, fileSize, n, frame, flags, content, va);
    }
  }

  lemma {:induction false} LoadPageByte(view: View, frames: Frames, root: nat, base: nat, file: seq<nat>, fileSize: nat, n: nat,
                                        frame: nat, flags: nat, content: seq<nat>, va: nat)
    requires fileSize <= |file| && base % 4096 == 0 && base + n * 4096 + 4096 <= USER_TOP
    requires Loaded(view, frames, root, base, file, fileSize, n)
    requires frame !in frames && (root, Indices(base + n * 4096)) !in view
    requires |content| == 4096 && forall j :: 0 <= j < 4096 ==> content[j] == ImageByte(file, fileSize, n * 4096 + j)
    requires base <= va < base + (n + 1) * 4096
    ensures Read(view[(root, Indices(base + n * 4096)) := Pte(frame, flags)], frames[frame := content], root, va)
            == Some(ImageByte(file, fileSize, va - base))
  {
    PathIsPage(va, base + n * 4096);
    ReadAfterBind(view, frames, root, Indices(base + n * 4096), frame, flags, content, va);
    SamePage(va, base, n);
  }

  lemma {:induction false} SamePage(va: nat, base: nat, n: nat)
    requires base % 4096 == 0 && base <= va < base + (n + 1) * 4096
    ensures va / 4096 == (base + n * 4096) / 4096 <==> base + n * 4096 <= va
    ensures base + n * 4096 <= va ==> va % 4096 == va - base - n * 4096
  {
  }

  function ZeroPage(): (p: seq<nat>)
    ensures |p| == 4096 && forall j :: 0 <= j < 4096 ==> p[j] == 0
  {
    seq(4096, _ => 0)
  }

  /** Copy at most a page of what remains of the file over the start of a page. */
  function Overwrite(page: seq<nat>, file: seq<nat>, offset: nat, remaining: nat): (p: seq<nat>)
    requires |page| == 4096 && offset + remaining <= |file|
    ensures |p| == 4096
  {
    var size := if remaining < 4096 then remaining else 4096;
    file[offset..offset + size] + page[size..]
  }

  /** The image bytes that one page receives: what is left of the file, then the zeros it was born with. */
  function PageContent(file: seq<nat>, offset: nat, remaining: nat): (c: seq<nat>)
    requires remaining == 0 || offset + remaining <= |file|
    ensures |c| == 4096
  {
    if remaining == 0 then ZeroPage() else Overwrite(ZeroPage(), file, offset, remaining)
  }

  lemma {:induction false} PageContentIsImage(file: seq<nat>, fileSize: nat, n: nat, remaining: nat)
    requires fileSize <= |file| && remaining == if n * 4096 < fileSize then fileSize - n * 4096 else 0
    ensures forall j :: 0 <= j < 4096 ==> PageContent(file, n * 4096, remaining)[j] == ImageByte(file, fileSize, n * 4096 + j)
  {
  }

  /** Every page of the range is bound with these flags. */
  ghost predicate HasFlags(view: View, root: nat, base: nat, n: nat, flags: nat)
  {
    forall va :: base <= va < base + n * 4096 ==> (root, Indices(va)) in view && view[(root, Indices(va))].flags == flags
  }

  /** No page of `root` above the page of vaddr is bound. */
  ghost predicate MappedUpTo(view: View, root: nat, vaddr: nat)
  {
    forall key :: key in view && key.0 == root ==> IsPath(key.1) && PathNumber(key.1) <= vaddr / 4096
  }

  datatype Segment = Segment(load: bool, vaddr: nat, file: seq<nat>, memSize: nat, fileSize: nat, flags: nat) {
    function Base(): (b: nat) { PageFloor(vaddr) }
    function Pages(): (n: nat) { PagesFor(memSize) }
    /** The segment lies in user space, with three pages to spare, and its contents are in the file. */
    predicate WellFormed() { fileSize <= |file| && vaddr + Pages() * 4096 + 0x3000 <= USER_TOP }
  }

  /** Two segments want a common page. */
  predicate Overlap(s: Segment, t: Segment)
  {
    s.load && t.load &&
    s.Base() < t.Base() + t.Pages() * 4096 && t.Base() < s.Base() + s.Pages() * 4096
  }

  class BootLoader {
    const spaces: Spaces
    const bump: BumpAllocator
    const root: nat
    var frames: Frames
    var nextSlot: nat
    const slotMax: nat
    var maxVaddr: nat

    constructor (spaces: Spaces, bump: BumpAllocator, root: nat, frames: Frames, firstSlot: nat, slotMax: nat)
      ensures this.spaces == spaces && this.bump == bump && this.root == root && this.frames == frames
      ensures nextSlot == firstSlot && this.slotMax == slotMax && maxVaddr == 0
    {
      this.spaces, this.bump, this.root, this.frames := spaces, bump, root, frames;
      nextSlot, this.slotMax, maxVaddr := firstSlot, slotMax, 0;
    }

    /** Tables and frames lie below the unallocated memory. */
    ghost predicate Valid()
      reads this`frames, spaces, bump
    {
      && spaces.Valid() && IsRootTable(spaces.level, root)
      && (forall t :: t in spaces.tables ==> t < bump.start)
      && (forall f :: f in frames ==> f < bump.start)
    }

    ghost function View(): (v: View)
      requires Shape(spaces.tables)
      reads spaces
    {
      spaces.View()
    }

    /** Memory or root slots have run out. */
    predicate OutOfResources()
      reads this`nextSlot, bump
    {
      bump.Exhausted() || nextSlot > slotMax
    }

    /** Memory and root slots for n objects of one page each. */
    predicate Spare(n: nat)
      reads this`nextSlot, bump
    {
      bump.start + 4096 * n <= bump.end && nextSlot + n <= slotMax + 1
    }

    /** How many tables are missing for an address. */
    ghost function Missing(vaddr: nat): (n: nat)
      requires Shape(spaces.tables)
      reads spaces
      ensures n <= 3
    {
      Reached(spaces.tables, root, Indices(vaddr))
    }

    method AllocSlot() returns (ok: bool)
      modifies this`nextSlot
      ensures ok == (old(nextSlot) <= slotMax)
      ensures nextSlot == if ok then old(nextSlot) + 1 else old(nextSlot)
    {
      if nextSlot > slotMax {
        return false;
      }
      nextSlot := nextSlot + 1;
      return true;
    }

    /** Allocate one table, give it a root slot and link it where the walk for vaddr stops. */
    method AddTable(vaddr: nat) returns (ok: bool, level: nat)
      requires Valid() && vaddr < USER_TOP && Reached(spaces.tables, root, Indices(vaddr)) > 0
      modifies this`nextSlot, spaces, bump
      ensures ok ==>
                && Valid()
                && level == Reached(spaces.tables, root, Indices(vaddr)) == Reached(old(spaces.tables), root, Indices(vaddr)) - 1
                && View() == old(View())
                && bump.start == old(bump.start) + 4096
                && nextSlot == old(nextSlot) + 1
      ensures ok <==> old(Spare(1))
      ensures !ok ==> OutOfResources()
    {
      PathNumberIs(vaddr);
      var page := bump.AllocatePages(1);
      if page.Halt? {
        return false, 0;
      }
      var slotOk := AllocSlot();
      if !slotOk {
        return false, 0;
      }
      var r := spaces.MapFreshTable(page.value, root, vaddr);
      ok, level := true, r.value;
    }

    /** Link fresh tables until the walk for vaddr reaches level 0: as many as were missing. */
    method MapPageTables(vaddr: nat) returns (ok: bool)
      requires Valid() && vaddr < USER_TOP && Reached(spaces.tables, root, Indices(vaddr)) > 0
      modifies this`nextSlot, spaces, bump
      ensures ok ==>
                && Valid()
                && Reached(spaces.tables, root, Indices(vaddr)) == 0
                && View() == old(View())
                && bump.start == old(bump.start) + 4096 * Reached(old(spaces.tables), root, Indices(vaddr))
                && nextSlot == old(nextSlot) + Reached(old(spaces.tables), root, Indices(vaddr))
      ensures ok <==> old(Spare(Missing(vaddr)))
      ensures !ok ==> OutOfResources()
    {
      ghost var missing := Reached(spaces.tables, root, Indices(vaddr));
      ghost var l := missing;
      while true
        invariant Valid() && Reached(spaces.tables, root, Indices(vaddr)) == l && 0 < l <= missing
        invariant View() == old(View())
        invariant bump.start == old(bump.start) + 4096 * (missing - l)
        invariant nextSlot == old(nextSlot) + (missing - l)
        decreases l
      {
        var added, level := AddTable(vaddr);
        if !added {
          return false;
        }
        if level == 0 {
          return true;
        }
        l := level;
      }
    }

    /** Map a frame at vaddr, filling in tables if they are missing; an address that is
        already mapped stops the kernel. */
    method CreateMappedPage(frame: nat, vaddr: nat, flags: nat) returns (ok: bool, cap: MemCap)
      requires Valid() && vaddr < USER_TOP
      modifies this`nextSlot, spaces, bump
      ensures ok ==>
                && Valid() && bump.start == old(bump.start) + 4096 * old(Missing(vaddr)) && nextSlot == old(nextSlot) + old(Missing(vaddr))
                && (root, Indices(vaddr)) !in old(View())
                && View() == old(View())[(root, Indices(vaddr)) := PageEntry(frame, flags)]
                && cap == MemCap(frame, SetMapped(vaddr))
      ensures ok <==> (root, Indices(vaddr)) !in old(View()) && (old(Missing(vaddr)) > 0 ==> old(Spare(Missing(vaddr))))
      ensures !ok ==> OutOfResources() || (root, Indices(vaddr)) in old(View())
    {
      PathNumberIs(vaddr);
      var r: Result<()>;
      cap, r := spaces.MapFreshPage(frame, root, vaddr, flags);
      if r.Ok? {
        return true, cap;
      }
      if r.kind != PageTableNotMappedYet {
        return false, cap;
      }
      ok, cap := MapAgain(frame, vaddr, flags);
    }

    /** Fill in the tables that are missing and map the frame, which then succeeds. */
    method MapAgain(frame: nat, vaddr: nat, flags: nat) returns (ok: bool, cap: MemCap)
      requires Valid() && vaddr < USER_TOP && Reached(spaces.tables, root, Indices(vaddr)) > 0
      modifies this`nextSlot, spaces, bump
      ensures ok ==>
                && Valid() && bump.start == old(bump.start) + 4096 * old(Missing(vaddr)) && nextSlot == old(nextSlot) + old(Missing(vaddr))
                && (root, Indices(vaddr)) !in old(View())
                && View() == old(View())[(root, Indices(vaddr)) := PageEntry(frame, flags)]
                && cap == MemCap(frame, SetMapped(vaddr))
      ensures ok <==> old(Spare(Missing(vaddr)))
      ensures !ok ==> OutOfResources()
    {
      PathNumberIs(vaddr);
      NotBound(spaces.tables, spaces.level, root, Indices(vaddr));
      ok := MapPageTables(vaddr);
      if !ok {
        return false, MemCap(frame, 0);
      }
      var r;
      cap, r := spaces.MapFreshPage(frame, root, vaddr, flags);
    }

    /** One page of a segment: a fresh frame of zeros is bound at it and gets a root slot. */
    method PlacePage(vaddr: nat, flags: nat) returns (ok: bool, frame: nat)
      requires Valid() && vaddr < USER_TOP
      modifies this`frames, this`nextSlot, spaces, bump
      ensures ok ==>
                && Valid()
                && frame !in old(frames) && (root, Indices(vaddr)) !in old(View())
                && View() == old(View())[(root, Indices(vaddr)) := PageEntry(frame, flags)]
                && frames == old(frames)[frame := ZeroPage()]
                && bump.start == old(bump.start) + 4096 * (1 + old(Missing(vaddr))) && nextSlot == old(nextSlot) + 1 + old(Missing(vaddr))
      ensures ok <==> (root, Indices(vaddr)) !in old(View()) && old(Spare(1 + Missing(vaddr)))
      ensures !ok ==> OutOfResources() || (root, Indices(vaddr)) in old(View())
    {
      var page := bump.AllocatePages(1);
      if page.Halt? {
        return false, 0;
      }
      frame := page.value;
      frames := frames[frame := ZeroPage()];
      var cap;
      ok, cap := CreateMappedPage(frame, vaddr, flags);
      if ok {
        ok := AllocSlot();
      }
    }

    /** Place a page and note the highest address. */
    method PlaceNext(vaddr: nat, flags: nat) returns (ok: bool, frame: nat)
      requires Valid() && vaddr < USER_TOP && MappedUpTo(View(), root, maxVaddr)
      modifies this`frames, this`nextSlot, this`maxVaddr, spaces, bump
      ensures ok ==>
                && Valid() && MappedUpTo(View(), root, maxVaddr)
                && frame !in old(frames) && (root, Indices(vaddr)) !in old(View())
                && View() == old(View())[(root, Indices(vaddr)) := PageEntry(frame, flags)]
                && frames == old(frames)[frame := ZeroPage()]
                && bump.start <= old(bump.start) + 16384 && nextSlot <= old(nextSlot) + 4
      ensures ok <==> (root, Indices(vaddr)) !in old(View()) && old(Spare(1 + Missing(vaddr)))
      ensures maxVaddr == if old(maxVaddr) < vaddr then vaddr else old(maxVaddr)
      ensures !ok ==> OutOfResources() || (root, Indices(vaddr)) in old(View())
    {
      if maxVaddr < vaddr {
        maxVaddr := vaddr;
      }
      ok, frame := PlacePage(vaddr, flags);
      if ok {
        PathNumberIs(vaddr);
        StillUpTo(old(View()), root, Indices(vaddr), PageEntry(frame, flags), old(maxVaddr), vaddr);
      }
    }

    /** Place a page and copy the next part of the file into it. */
    method LoadOnePage(vaddr: nat, file: seq<nat>, offset: nat, remaining: nat, flags: nat) returns (ok: bool, frame: nat)
      requires Valid() && vaddr < USER_TOP && MappedUpTo(View(), root, maxVaddr)
      requires remaining == 0 || offset + remaining <= |file|
      modifies this, spaces, bump
      ensures ok ==>
                && Valid() && MappedUpTo(View(), root, maxVaddr)
                && frame !in old(frames) && (root, Indices(vaddr)) !in old(View())
                && View() == old(View())[(root, Indices(vaddr)) := PageEntry(frame, flags)]
                && frames == old(frames)[frame := PageContent(file, offset, remaining)]
                && bump.start <= old(bump.start) + 16384 && nextSlot <= old(nextSlot) + 4
      ensures ok <==> (root, Indices(vaddr)) !in old(View()) && old(Spare(1 + Missing(vaddr)))
      ensures maxVaddr == if old(maxVaddr) < vaddr then vaddr else old(maxVaddr)
      ensures !ok ==> OutOfResources() || (root, Indices(vaddr)) in old(View())
    {
      ok, frame := PlaceNext(vaddr, flags);
      if ok {
        CopyInto(frame, file, offset, remaining);
        UpdateTwice(old(frames), frame, ZeroPage(), PageContent(file, offset, remaining));
      }
    }

    /** Copy the next part of the file, if any is left, into a page of zeros. */
    method CopyInto(frame: nat, file: seq<nat>, offset: nat, remaining: nat)
      requires Valid() && frame in frames && frames[frame] == ZeroPage() && (remaining == 0 || offset + remaining <= |file|)
      modifies this`frames
      ensures Valid() && frames == old(frames)[frame := PageContent(file, offset, remaining)]
    {
      if remaining != 0 {
        frames := frames[frame := Overwrite(frames[frame], file, offset, remaining)];
      }
    }

    /** Load page i of a segment whose first i pages have been loaded. */
    method LoadNext(vaddr: nat, file: seq<nat>, ghost fileSize: nat, flags: nat, i: nat, remaining: nat, ghost view0: View, ghost frames0: Frames)
      returns (ok: bool)
      requires Valid() && MappedUpTo(View(), root, maxVaddr) && fileSize <= |file| && vaddr + i * 4096 + 4096 <= USER_TOP
      requires Progress(view0, frames0, View(), frames, root, vaddr, file, fileSize, flags, i)
      requires remaining == if i * 4096 < fileSize then fileSize - i * 4096 else 0
      modifies this, spaces, bump
      ensures maxVaddr == if old(maxVaddr) < vaddr + i * 4096 then vaddr + i * 4096 else old(maxVaddr)
      ensures ok ==>
                && Valid() && MappedUpTo(View(), root, maxVaddr)
                && Progress(view0, frames0, View(), frames, root, vaddr, file, fileSize, flags, i + 1)
                && bump.start <= old(bump.start) + 16384 && nextSlot <= old(nextSlot) + 4
      ensures !ok ==> (OutOfResources() && !old(Spare(4))) || forall n :: i < n ==> Collides(view0, root, vaddr, n)
    {
      ghost var view, fs := View(), frames;
      var offset := PAGE_SIZE * i;
      var va := vaddr + offset;
      var frame;
      ok, frame := LoadOnePage(va, file, offset, remaining, flags);
      if ok {
        ProgressStep(view0, frames0, view, fs, root, vaddr, file, fileSize, flags, i, frame, remaining, va, offset);
      } else if (root, Indices(va)) in view {
        CollidesWithOld(view0, frames0, view, fs, root, vaddr, file, fileSize, flags, i, va);
      }
    }

    /** Load one segment.  It fails only if memory or slots run out or a page of the segment is taken; four pages of memory
        and four slots for each page are always enough. */
    method MapProgram(vaddr: nat, file: seq<nat>, memSize: nat, fileSize: nat, flags: nat) returns (ok: bool)
      requires Valid() && MappedUpTo(View(), root, maxVaddr) && maxVaddr + 0x3000 <= USER_TOP
      requires fileSize <= |file| && vaddr + PagesFor(memSize) * 4096 + 0x3000 <= USER_TOP
      modifies this, spaces, bump
      ensures maxVaddr + 0x3000 <= USER_TOP
      ensures ok ==>
                && Valid() && MappedUpTo(View(), root, maxVaddr)
                && Progress(old(View()), old(frames), View(), frames, root, vaddr, file, fileSize, flags, PagesFor(memSize))
                && AtAddress(View(), frames, root, vaddr, file, fileSize, memSize)
      ensures !ok ==> OutOfResources() || Collides(old(View()), root, vaddr, PagesFor(memSize))
      ensures old(Spare(4 * PagesFor(memSize))) && !Collides(old(View()), root, vaddr, PagesFor(memSize)) ==> ok
    {
      AlignUpPages(memSize);
      var pageNum := AlignUp(memSize, PAGE_SIZE) / PAGE_SIZE;
      var remaining := fileSize;
      var i := 0;
      while i < pageNum
        invariant 0 <= i <= pageNum == PagesFor(memSize)
        invariant Valid() && MappedUpTo(View(), root, maxVaddr) && maxVaddr + 0x3000 <= USER_TOP
        invariant Progress(old(View()), old(frames), View(), frames, root, vaddr, file, fileSize, flags, i)
        invariant remaining == if i * 4096 < fileSize then fileSize - i * 4096 else 0
        invariant bump.start <= old(bump.start) + 16384 * i && nextSlot <= old(nextSlot) + 4 * i
      {
        ok := LoadNext(vaddr, file, fileSize, flags, i, remaining, old(View()), old(frames));
        if !ok {
          return;
        }
        remaining := if remaining < PAGE_SIZE then 0 else remaining - PAGE_SIZE;
        i := i + 1;
      }
      LoadedAtAddress(View(), frames, root, vaddr, file, fileSize, memSize);
      ok := true;
    }

    /** Load every loadable segment, in order. */
    method MapSelf(segments: seq<Segment>) returns (ok: bool)
      requires Valid() && MappedUpTo(View(), root, maxVaddr) && maxVaddr + 0x3000 <= USER_TOP
      requires forall i :: 0 <= i < |segments| ==> segments[i].WellFormed()
      modifies this, spaces, bump
      ensures maxVaddr + 0x3000 <= USER_TOP
      ensures ok ==>
                && Valid() && MappedUpTo(View(), root, maxVaddr)
                && AllLoaded(View(), frames, root, segments, |segments|)
                && AllAtAddress(View(), frames, root, segments)
                && Keeps(old(View()), old(frames), View(), frames)
      ensures !ok ==> OutOfResources() || Conflict(old(View()), root, segments)
    {
      var i := 0;
      while i < |segments|
        invariant 0 <= i <= |segments|
        invariant Valid() && MappedUpTo(View(), root, maxVaddr) && maxVaddr + 0x3000 <= USER_TOP
        invariant AllLoaded(View(), frames, root, segments, i)
        invariant Keeps(old(View()), old(frames), View(), frames)
        invariant From(old(View()), View(), root, segments, i)
      {
        if segments[i].load {
          var s := segments[i];
          ghost var view, fs := View(), frames;
          ok := MapProgram(s.vaddr, s.file, s.memSize, s.fileSize, s.flags);
          if !ok {
            if Collides(view, root, s.vaddr, s.Pages()) {
              ConflictFound(old(View()), view, root, segments, i);
            }
            return;
          }
          SegmentStep(old(View()), old(frames), view, fs, View(), frames, root, segments, i);
        } else {
          SkipSegment(View(), frames, root, segments, i);
        }
        i := i + 1;
      }
      AllLoadedAtAddress(View(), frames, root, segments);
      ok := true;
    }

    /** Map one more frame at an address that is not taken, beside a loaded program. */
    method MapBeside(segments: seq<Segment>, frame: nat, vaddr: nat, flags: nat) returns (ok: bool)
      requires Valid() && vaddr < USER_TOP && (root, Indices(vaddr)) !in View()
      requires forall i :: 0 <= i < |segments| ==> segments[i].WellFormed()
      requires AllLoaded(View(), frames, root, segments, |segments|)
      modifies this`nextSlot, spaces, bump
      ensures ok ==>
                && Valid()
                && AllLoaded(View(), frames, root, segments, |segments|)
                && View() == old(View())[(root, Indices(vaddr)) := PageEntry(frame, flags)]
      ensures !ok ==> OutOfResources()
    {
      var cap;
      ok, cap := CreateMappedPage(frame, vaddr, flags);
      if ok {
        StillAllLoaded(old(View()), frames, root, segments, Indices(vaddr), PageEntry(frame, flags));
      }
    }

    /** Load the program and put the IPC buffer and the boot information one and two pages
        past its highest page: those two addresses are never taken. */
    method CreateInitialSpace(segments: seq<Segment>, ipcFrame: nat, bootFrame: nat)
      returns (ok: bool, ipc: nat, info: nat)
      requires Valid() && MappedUpTo(View(), root, maxVaddr) && maxVaddr + 0x3000 <= USER_TOP
      requires forall i :: 0 <= i < |segments| ==> segments[i].WellFormed()
      modifies this, spaces, bump
      ensures ok ==>
                && Valid()
                && AllLoaded(View(), frames, root, segments, |segments|)
                && ipc == maxVaddr + 4096 && info == maxVaddr + 8192
                && (root, Indices(ipc)) in View()
                && View()[(root, Indices(ipc))] == PageEntry(ipcFrame, PAGE_R + PAGE_W + PAGE_U)
                && (root, Indices(info)) in View()
                && View()[(root, Indices(info))] == PageEntry(bootFrame, PAGE_R + PAGE_U)
      ensures !ok ==> OutOfResources() || Conflict(old(View()), root, segments)
    {
      ok := MapSelf(segments);
      ipc, info := maxVaddr + PAGE_SIZE, maxVaddr + PAGE_SIZE + PAGE_SIZE;
      if ok {
        PastTheEnd(View(), root, maxVaddr, ipc, info);
        ok := MapTwo(segments, ipcFrame, ipc, bootFrame, info);
      }
    }

    /** Map two frames beside a loaded program. */
    method MapTwo(segments: seq<Segment>, ipcFrame: nat, ipc: nat, bootFrame: nat, info: nat) returns (ok: bool)
      requires Valid() && ipc < USER_TOP && info < USER_TOP && Indices(ipc) != Indices(info)
      requires (root, Indices(ipc)) !in View() && (root, Indices(info)) !in View()
      requires forall i :: 0 <= i < |segments| ==> segments[i].WellFormed()
      requires AllLoaded(View(), frames, root, segments, |segments|)
      modifies this`nextSlot, spaces, bump
      ensures ok ==>
                && Valid()
                && AllLoaded(View(), frames, root, segments, |segments|)
                && (root, Indices(ipc)) in View()
                && View()[(root, Indices(ipc))] == PageEntry(ipcFrame, PAGE_R + PAGE_W + PAGE_U)
                && (root, Indices(info)) in View()
                && View()[(root, Indices(info))] == PageEntry(bootFrame, PAGE_R + PAGE_U)
      ensures !ok ==> OutOfResources()
    {
      ok := MapBeside(segments, ipcFrame, ipc, PAGE_R + PAGE_W + PAGE_U);
      if ok {
        ok := MapBeside(segments, bootFrame, info, PAGE_R + PAGE_U);
      }
    }
  }

  /** i pages of a segment have been loaded, and nothing else has changed. */
  ghost predicate Progress(view0: View, frames0: Frames, view: View, frames: Frames, root: nat, vaddr: nat,
                           file: seq<nat>, fileSize: nat, flags: nat, i: nat)
    requires fileSize <= |file|
  {
    && OnlyPages(view0, frames0, view, frames, root, vaddr / 4096, vaddr / 4096 + i)
    && Loaded(view, frames, root, PageFloor(vaddr), file, fileSize, i)
    && HasFlags(view, root, PageFloor(vaddr), i, PageEntry(0, flags).flags)
  }

  // ---------------------------------------------------------------- where the image is found

  /** Byte k of the memory image is at vaddr + k. */
  ghost predicate ReadsAsImage(view: View, frames: Frames, root: nat, vaddr: nat, file: seq<nat>, fileSize: nat, memSize: nat)
    requires fileSize <= |file|
  {
    forall k :: 0 <= k < memSize ==> Read(view, frames, root, vaddr + k) == Some(ImageByte(file, fileSize, k))
  }

  /** What is at vaddr + k is byte k + vaddr % 4096 of the image, as far as pages were mapped; at a page
      boundary that is byte k. */
  ghost predicate AtAddress(view: View, frames: Frames, root: nat, vaddr: nat, file: seq<nat>, fileSize: nat, memSize: nat)
    requires fileSize <= |file|
  {
    && (forall va :: vaddr <= va < PageFloor(vaddr) + PagesFor(memSize) * 4096 ==>
          Read(view, frames, root, va) == Some(ImageByte(file, fileSize, va - vaddr + vaddr % 4096)))
    && (vaddr % 4096 == 0 ==> ReadsAsImage(view, frames, root, vaddr, file, fileSize, memSize))
  }

  lemma {:induction false} LoadedAtAddress(view: View, frames: Frames, root: nat, vaddr: nat, file: seq<nat>, fileSize: nat, memSize: nat)
    requires fileSize <= |file| && Loaded(view, frames, root, PageFloor(vaddr), file, fileSize, PagesFor(memSize))
    ensures AtAddress(view, frames, root, vaddr, file, fileSize, memSize)
  {
    LoadedFrom(view, frames, root, PageFloor(vaddr), vaddr % 4096, file, fileSize, PagesFor(memSize));
    if vaddr % 4096 == 0 {
      LoadedInPlace(view, frames, root, vaddr, file, fileSize, memSize);
    }
  }

  lemma {:induction false} LoadedFrom(view: View, frames: Frames, root: nat, base: nat, shift: nat, file: seq<nat>, fileSize: nat, n: nat)
    requires fileSize <= |file| && Loaded(view, frames, root, base, file, fileSize, n)
    ensures forall va :: base + shift <= va < base + n * 4096 ==>
                           Read(view, frames, root, va) == Some(ImageByte(file, fileSize, va - (base + shift) + shift))
  {
  }

  lemma {:induction false} LoadedInPlace(view: View, frames: Frames, root: nat, base: nat, file: seq<nat>, fileSize: nat, memSize: nat)
    requires fileSize <= |file| && Loaded(view, frames, root, base, file, fileSize, PagesFor(memSize))
    ensures ReadsAsImage(view, frames, root, base, file, fileSize, memSize)
  {
    forall k | 0 <= k < memSize
      ensures Read(view, frames, root, base + k) == Some(ImageByte(file, fileSize, k))
    {
      var va := base + k;
      assert Read(view, frames, root, va) == Some(ImageByte(file, fileSize, va - base));
    }
  }

  ghost predicate SegmentAtAddress(view: View, frames: Frames, root: nat, s: Segment)
    requires s.WellFormed()
  {
    AtAddress(view, frames, root, s.vaddr, s.file, s.fileSize, s.memSize)
  }

  ghost predicate AllAtAddress(view: View, frames: Frames, root: nat, segments: seq<Segment>)
    requires forall i :: 0 <= i < |segments| ==> segments[i].WellFormed()
  {
    forall i :: 0 <= i < |segments| && segments[i].load ==> SegmentAtAddress(view, frames, root, segments[i])
  }

  lemma {:induction false} AllLoadedAtAddress(view: View, frames: Frames, root: nat, segments: seq<Segment>)
    requires forall i :: 0 <= i < |segments| ==> segments[i].WellFormed()
    requires AllLoaded(view, frames, root, segments, |segments|)
    ensures AllAtAddress(view, frames, root, segments)
  {
    forall i | 0 <= i < |segments| && segments[i].load
      ensures SegmentAtAddress(view, frames, root, segments[i])
    {
      var s := segments[i];
      LoadedAtAddress(view, frames, root, s.vaddr, s.file, s.fileSize, s.memSize);
    }
  }

  /** A segment that has been loaded, starting from no page at all. */
  ghost predicate IsLoad(view: View, frames: Frames, root: nat, vaddr: nat, file: seq<nat>, fileSize: nat, memSize: nat)
  {
    fileSize <= |file| && exists view0, frames0, flags :: Progress(view0, frames0, view, frames, root, vaddr, file, fileSize, flags, PagesFor(memSize))
  }

  /** Every load leaves every image at its address. */
  ghost predicate LoadsRight(vaddr: nat)
  {
    forall view, frames, root, file, fileSize, memSize :: IsLoad(view, frames, root, vaddr, file, fileSize, memSize) ==>
      ReadsAsImage(view, frames, root, vaddr, file, fileSize, memSize)
  }

  /** Such a load away from a page boundary: a file of one byte, which is not found at its address. */
  lemma {:induction false} UnalignedLoad(vaddr: nat, root: nat) returns (view: View, frames: Frames)
    requires vaddr % 4096 != 0 && vaddr + 4096 <= USER_TOP
    ensures IsLoad(view, frames, root, vaddr, [7], 1, 1)
    ensures Read(view, frames, root, vaddr) == Some(0) && !ReadsAsImage(view, frames, root, vaddr, [7], 1, 1)
  {
    view, frames := imap[(root, Indices(vaddr)) := PageEntry(0, PAGE_R)], map[0 := PageContent([7], 0, 1)];
    OnePageLoad(vaddr, root, view, frames);
    LoadedAtAddress(view, frames, root, vaddr, [7], 1, 1);
    assert Read(view, frames, root, vaddr) == Some(ImageByte([7], 1, vaddr - vaddr + vaddr % 4096));
    assert Read(view, frames, root, vaddr + 0) != Some(ImageByte([7], 1, 0));
  }

  lemma {:induction false} OnePageLoad(vaddr: nat, root: nat, view: View, frames: Frames)
    requires vaddr + 4096 <= USER_TOP
    requires view == imap[(root, Indices(vaddr)) := PageEntry(0, PAGE_R)] && frames == map[0 := PageContent([7], 0, 1)]
    ensures Progress(imap[], map[], view, frames, root, vaddr, [7], 1, PAGE_R, PagesFor(1))
  {
    var view0: View, frames0: Frames := imap[], map[];
    assert Progress(view0, frames0, view0, frames0, root, vaddr, [7], 1, PAGE_R, 0);
    ProgressStep(view0, frames0, view0, frames0, root, vaddr, [7], 1, PAGE_R, 0, 0, 1, vaddr, 0);
    assert view0[(root, Indices(vaddr)) := PageEntry(0, PAGE_R)] == view;
    assert frames0[0 := PageContent([7], 0, 1)] == frames;
  }

  /** Every load of a segment leaves its image where the header says exactly if the address is aligned. */
  lemma {:induction false} LoadsRightExactly(vaddr: nat)
    requires vaddr + 4096 <= USER_TOP
    ensures LoadsRight(vaddr) <==> vaddr % 4096 == 0
  {
    if vaddr % 4096 == 0 {
      forall view, frames, root, file, fileSize, memSize | IsLoad(view, frames, root, vaddr, file, fileSize, memSize)
        ensures ReadsAsImage(view, frames, root, vaddr, file, fileSize, memSize)
      {
        LoadedAtAddress(view, frames, root, vaddr, file, fileSize, memSize);
      }
    } else {
      var view, frames := UnalignedLoad(vaddr, 0);
    }
  }

  /** Some page of the range is bound already. */
  ghost predicate Collides(view: View, root: nat, vaddr: nat, n: nat)
  {
    exists va :: PageFloor(vaddr) <= va < PageFloor(vaddr) + n * 4096 && (root, Indices(va)) in view
  }

  lemma {:induction false} AlignUpPages(size: nat)
    requires size + 4096 < WORD
    ensures AlignUp(size, PAGE_SIZE) / PAGE_SIZE == PagesFor(size)
  {
    Pow2Small();
    AlignUpIsLeast(size, 12);
  }

  lemma {:induction false} FloorPage(vaddr: nat, i: nat, va: nat)
    requires va == vaddr + i * 4096 < USER_TOP
    ensures Indices(PageFloor(vaddr) + i * 4096) == Indices(va)
    ensures PathNumber(Indices(va)) == vaddr / 4096 + i
    ensures PageFloor(vaddr) % 4096 == 0
  {
    FloorArithmetic(vaddr, i);
    PathIsPage(PageFloor(vaddr) + i * 4096, va);
    PathNumberIs(va);
  }

  lemma {:induction false} FloorArithmetic(vaddr: nat, i: nat)
    ensures (PageFloor(vaddr) + i * 4096) / 4096 == (vaddr + i * 4096) / 4096 == vaddr / 4096 + i
    ensures PageFloor(vaddr) % 4096 == 0
  {
  }

  lemma {:induction false} ProgressStep(view0: View, frames0: Frames, view: View, frames: Frames, root: nat, vaddr: nat,
                                        file: seq<nat>, fileSize: nat, flags: nat, i: nat, frame: nat, remaining: nat,
                                        va: nat, offset: nat)
    requires offset == i * 4096 && va == vaddr + offset
    requires fileSize <= |file| && vaddr + i * 4096 + 4096 <= USER_TOP
    requires Progress(view0, frames0, view, frames, root, vaddr, file, fileSize, flags, i)
    requires frame !in frames && (root, Indices(va)) !in view
    requires remaining == if i * 4096 < fileSize then fileSize - i * 4096 else 0
    ensures Progress(view0, frames0, view[(root, Indices(va)) := PageEntry(frame, flags)],
                     frames[frame := PageContent(file, offset, remaining)], root, vaddr, file, fileSize, flags, i + 1)
  {
    FloorPage(vaddr, i, va);
    BytesStep(view, frames, root, PageFloor(vaddr), file, fileSize, i, frame, PageEntry(frame, flags), remaining, offset);
    FlagsStep(view, root, PageFloor(vaddr), i, PageEntry(frame, flags));
    OnePageMore(view0, frames0, view, frames, root, vaddr / 4096, i, Indices(va), PageEntry(frame, flags), frame, PageContent(file, offset, remaining));
  }

  lemma {:induction false} BytesStep(view: View, frames: Frames, root: nat, base: nat, file: seq<nat>, fileSize: nat, i: nat, frame: nat, e: Pte,
                                     remaining: nat, offset: nat)
    requires fileSize <= |file| && base % 4096 == 0 && base + i * 4096 + 4096 <= USER_TOP && offset == i * 4096 && e.addr == frame
    requires Loaded(view, frames, root, base, file, fileSize, i) && frame !in frames && (root, Indices(base + i * 4096)) !in view
    requires remaining == if i * 4096 < fileSize then fileSize - i * 4096 else 0
    ensures Loaded(view[(root, Indices(base + i * 4096)) := e], frames[frame := PageContent(file, offset, remaining)], root, base, file, fileSize, i + 1)
  {
    PageContentIsImage(file, fileSize, i, remaining);
    LoadPage(view, frames, root, base, file, fileSize, i, frame, e.flags, PageContent(file, offset, remaining));
  }

  lemma {:induction false} OnePageMore(view0: View, frames0: Frames, view: View, frames: Frames, root: nat, lo: nat, i: nat,
                                       ix: seq<nat>, e: Pte, frame: nat, content: seq<nat>)
    requires OnlyPages(view0, frames0, view, frames, root, lo, lo + i) && frame !in frames && (root, ix) !in view
    requires IsPath(ix) && PathNumber(ix) == lo + i
    ensures OnlyPages(view0, frames0, view[(root, ix) := e], frames[frame := content], root, lo, lo + i + 1)
  {
  }

  lemma {:induction false} FlagsStep(view: View, root: nat, base: nat, n: nat, e: Pte)
    requires base % 4096 == 0 && base + n * 4096 + 4096 <= USER_TOP
    requires HasFlags(view, root, base, n, e.flags)
    ensures HasFlags(view[(root, Indices(base + n * 4096)) := e], root, base, n + 1, e.flags)
  {
    forall va | base <= va < base + (n + 1) * 4096
      ensures var v := view[(root, Indices(base + n * 4096)) := e];
              (root, Indices(va)) in v && v[(root, Indices(va))].flags == e.flags
    {
      PathIsPage(va, base + n * 4096);
      SamePage(va, base, n);
    }
  }

  lemma {:induction false} CollidesWithOld(view0: View, frames0: Frames, view: View, frames: Frames, root: nat, vaddr: nat,
                                           file: seq<nat>, fileSize: nat, flags: nat, i: nat, va: nat)
    requires va == vaddr + i * 4096
    requires fileSize <= |file| && vaddr + i * 4096 + 4096 <= USER_TOP
    requires Progress(view0, frames0, view, frames, root, vaddr, file, fileSize, flags, i)
    requires (root, Indices(va)) in view
    ensures forall n :: i < n ==> Collides(view0, root, vaddr, n)
  {
    FloorPage(vaddr, i, va);
    assert (root, Indices(PageFloor(vaddr) + i * 4096)) in view0;
  }

  /** Every byte of the segment reads as its image, through pages with the segment's rights. */
  ghost predicate SegmentLoaded(view: View, frames: Frames, root: nat, s: Segment)
    requires s.WellFormed()
  {
    && Loaded(view, frames, root, s.Base(), s.file, s.fileSize, s.Pages())
    && HasFlags(view, root, s.Base(), s.Pages(), PageEntry(0, s.flags).flags)
  }

  ghost predicate AllLoaded(view: View, frames: Frames, root: nat, segments: seq<Segment>, n: nat)
    requires n <= |segments| && forall i :: 0 <= i < |segments| ==> segments[i].WellFormed()
  {
    forall i :: 0 <= i < n && segments[i].load ==> SegmentLoaded(view, frames, root, segments[i])
  }

  /** Bindings and frames that were there are still there. */
  ghost predicate Keeps(view: View, frames: Frames, view': View, frames': Frames)
  {
    && (forall key :: key in view ==> key in view' && view'[key] == view[key])
    && (forall f :: f in frames ==> f in frames' && frames'[f] == frames[f])
  }

  /** The page of a path belongs to the segment. */
  predicate InSegment(s: Segment, ix: seq<nat>)
  {
    IsPath(ix) && s.load && s.vaddr / 4096 <= PathNumber(ix) < s.vaddr / 4096 + s.Pages()
  }

  /** Every new binding belongs to one of the first n segments. */
  ghost predicate From(view0: View, view: View, root: nat, segments: seq<Segment>, n: nat)
    requires n <= |segments|
  {
    forall key :: key in view && key !in view0 ==>
      key.0 == root && exists j :: 0 <= j < n && InSegment(segments[j], key.1)
  }

  /** The segments cannot all be mapped: two of them share a page, or a page is taken. */
  ghost predicate Conflict(view: View, root: nat, segments: seq<Segment>)
  {
    || (exists i, j :: 0 <= i < j < |segments| && Overlap(segments[i], segments[j]))
    || (exists i :: 0 <= i < |segments| && segments[i].load && Collides(view, root, segments[i].vaddr, segments[i].Pages()))
  }

  lemma {:induction false} SegmentStep(view0: View, frames0: Frames, view: View, frames: Frames, view': View, frames': Frames,
                                       root: nat, segments: seq<Segment>, i: nat)
    requires i < |segments| && forall k :: 0 <= k < |segments| ==> segments[k].WellFormed()
    requires segments[i].load && AllLoaded(view, frames, root, segments, i)
    requires Keeps(view0, frames0, view, frames) && From(view0, view, root, segments, i)
    requires var s := segments[i];
             Progress(view, frames, view', frames', root, s.vaddr, s.file, s.fileSize, s.flags, s.Pages())
    ensures AllLoaded(view', frames', root, segments, i + 1)
    ensures Keeps(view0, frames0, view', frames') && From(view0, view', root, segments, i + 1)
  {
    var s := segments[i];
    forall k | 0 <= k < i + 1 && segments[k].load
      ensures SegmentLoaded(view', frames', root, segments[k])
    {
      SegmentStays(view, frames, view', frames', root, s, segments[k], k < i);
    }
    KeepsStep(view0, frames0, view, frames, view', frames', root, s.vaddr / 4096, s.vaddr / 4096 + s.Pages());
    FromStep(view0, frames0, view, frames, view', frames', root, segments, i);
  }

  /** Loading segment s leaves it loaded, and leaves t loaded if it was. */
  lemma {:induction false} SegmentStays(view: View, frames: Frames, view': View, frames': Frames, root: nat, s: Segment, t: Segment, was: bool)
    requires s.WellFormed() && t.WellFormed() && if was then SegmentLoaded(view, frames, root, t) else t == s
    requires Progress(view, frames, view', frames', root, s.vaddr, s.file, s.fileSize, s.flags, s.Pages())
    ensures SegmentLoaded(view', frames', root, t)
  {
    if was {
      StillLoaded(view, frames, view', frames', root, s.vaddr / 4096, s.vaddr / 4096 + s.Pages(), t.Base(), t.file, t.fileSize, t.Pages());
    }
  }

  lemma {:induction false} KeepsStep(view0: View, frames0: Frames, view: View, frames: Frames, view': View, frames': Frames,
                                     root: nat, lo: nat, hi: nat)
    requires Keeps(view0, frames0, view, frames) && OnlyPages(view, frames, view', frames', root, lo, hi)
    ensures Keeps(view0, frames0, view', frames')
  {
  }

  lemma {:induction false} SkipSegment(view: View, frames: Frames, root: nat, segments: seq<Segment>, i: nat)
    requires i < |segments| && forall k :: 0 <= k < |segments| ==> segments[k].WellFormed()
    requires !segments[i].load && AllLoaded(view, frames, root, segments, i)
    ensures AllLoaded(view, frames, root, segments, i + 1)
  {
  }

  lemma {:induction false} FromStep(view0: View, frames0: Frames, view: View, frames: Frames, view': View, frames': Frames,
                                    root: nat, segments: seq<Segment>, i: nat)
    requires i < |segments| && segments[i].load && From(view0, view, root, segments, i)
    requires var s := segments[i];
             OnlyPages(view, frames, view', frames', root, s.vaddr / 4096, s.vaddr / 4096 + s.Pages())
    ensures From(view0, view', root, segments, i + 1)
  {
    forall key | key in view' && key !in view0
      ensures key.0 == root && exists j :: 0 <= j < i + 1 && InSegment(segments[j], key.1)
    {
      if key in view {
        var j :| 0 <= j < i && InSegment(segments[j], key.1);
      } else {
        assert InSegment(segments[i], key.1);
      }
    }
  }

  lemma {:induction false} ConflictFound(view0: View, view: View, root: nat, segments: seq<Segment>, i: nat)
    requires i < |segments| && segments[i].load && segments[i].WellFormed()
    requires From(view0, view, root, segments, i)
    requires Collides(view, root, segments[i].vaddr, segments[i].Pages())
    ensures Conflict(view0, root, segments)
  {
    var s := segments[i];
    var va :| s.Base() <= va < s.Base() + s.Pages() * 4096 && (root, Indices(va)) in view;
    if (root, Indices(va)) in view0 {
      assert Collides(view0, root, s.vaddr, s.Pages());
    } else {
      var j :| 0 <= j < i && InSegment(segments[j], Indices(va));
      PathNumberIs(va);
      SharedPage(segments[j], s, va);
      assert Overlap(segments[j], segments[i]);
    }
  }

  lemma {:induction false} SharedPage(t: Segment, s: Segment, va: nat)
    requires t.load && s.load && s.Base() <= va < s.Base() + s.Pages() * 4096
    requires t.vaddr / 4096 <= va / 4096 < t.vaddr / 4096 + t.Pages()
    ensures Overlap(t, s)
  {
    assert t.Base() == t.vaddr / 4096 * 4096;
  }

  lemma {:induction false} PastTheEnd(view: View, root: nat, top: nat, ipc: nat, info: nat)
    requires MappedUpTo(view, root, top) && ipc == top + 4096 && info == top + 8192 && top + 0x3000 <= USER_TOP
    ensures (root, Indices(ipc)) !in view && (root, Indices(info)) !in view && Indices(ipc) != Indices(info)
  {
    PathNumberIs(ipc);
    PathNumberIs(info);
  }

  lemma {:induction false} StillAllLoaded(view: View, frames: Frames, root: nat, segments: seq<Segment>, ix: seq<nat>, e: Pte)
    requires forall i :: 0 <= i < |segments| ==> segments[i].WellFormed()
    requires IsPath(ix) && (root, ix) !in view && AllLoaded(view, frames, root, segments, |segments|)
    ensures AllLoaded(view[(root, ix) := e], frames, root, segments, |segments|)
  {
    var view' := view[(root, ix) := e];
    forall k | 0 <= k < |segments| && segments[k].load
      ensures SegmentLoaded(view', frames, root, segments[k])
    {
      var t := segments[k];
      StillLoaded(view, frames, view', frames, root, PathNumber(ix), PathNumber(ix) + 1,
                  t.Base(), t.file, t.fileSize, t.Pages());
    }
  }

  lemma {:induction false} UpdateTwice(m: Frames, k: nat, a: seq<nat>, b: seq<nat>)
    ensures m[k := a][k := b] == m[k := b] && m[k := a][k] == a
  {
  }

  lemma {:induction false} StillUpTo(view: View, root: nat, ix: seq<nat>, e: Pte, top: nat, vaddr: nat)
    requires MappedUpTo(view, root, top) && IsPath(ix) && PathNumber(ix) == vaddr / 4096
    ensures MappedUpTo(view[(root, ix) := e], root, if top < vaddr then vaddr else top)
  {
  }

  /** Where tables are missing nothing is bound. */
  lemma {:induction false} NotBound(ts: Tables, lv: map<nat, nat>, root: nat, ix: seq<nat>)
    requires Shape(ts) && IsPath(ix) && Reached(ts, root, ix) > 0
    ensures (root, ix) !in Bindings(ts, lv)
  {
  }
}
