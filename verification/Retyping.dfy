/**
 Untyped memory and the objects made from it.  An untyped capability keeps one word: how
 far its block has been used and how large the block is.  Retyping rounds the free index up
 to the alignment of the new kind and lays the objects out one stride apart, where the
 stride is the size of all of them together.  Objects therefore never overlap, over any
 sequence of retypes, but several at once may run past the end of the block.
 */
module Retyping {
  import opened Kinds
  import opened Bits
  import opened Packing
  import opened CSpace

  /** An object in physical memory. */
  datatype Region = Region(kind: CapType, base: nat, size: nat) {
    function End(): (e: nat) { base + size }
  }

  /** The size of an object; `None` where computing it overflows.  That of a thread control block
      is a parameter of the build. */
  function SizeOf(kind: CapType, userSize: nat, tcbSize: nat): (r: Option<nat>)
    requires !kind.Untyped? && tcbSize % 8 == 0
    ensures r.Some? ==> r.value % 8 == 0
  {
    match kind
    case Tcb => Some(tcbSize)
    case EndPoint => Some(24)
    case Notification => Some(32)
    case CNode => if userSize < 59 then Some(Pow2(userSize) * 32) else None
    case PageTable => Some(PAGE_SIZE)
    case Page => Some(PAGE_SIZE)
  }

  /** The alignment of a kind: the CNode type has no fields and hence alignment 1. */
  function AlignBits(kind: CapType): (k: nat)
  {
    match kind
    case CNode => 0
    case PageTable => 12
    case Page => 12
    case _ => 3
  }

  function Alignment(kind: CapType): (a: nat)
    ensures a > 0
  {
    Pow2(AlignBits(kind))
  }

  /** The word of a new capability: a CNode's radix, otherwise nothing. */
  function NewWord(kind: CapType, userSize: nat): (w: nat) { if kind.CNode? then userSize else 0 }

  /** A capability that nothing has been done with yet: a page or table that says it is mapped nowhere, an endpoint or
      notification without a badge, a CNode with the radix asked for. */
  predicate Unused(c: Cap, userSize: nat)
  {
    match c.ctype
    case Page => !IsMapped(c.word) && MappedAddress(c.word) == 0
    case PageTable => !IsMapped(c.word) && !IsRoot(c.word)
    case EndPoint => c.word == 0
    case Notification => c.word == 0
    case CNode => userSize < 0x1_0000_0000 ==> c.Radix() == userSize
    case _ => true
  }

  lemma {:induction false} NewIsUnused(kind: CapType, addr: nat, userSize: nat)
    ensures Unused(Cap(kind, addr, NewWord(kind, userSize)), userSize)
  {
    ClearWord();
    if userSize < 0x1_0000_0000 { SmallMod(userSize, 0x1_0000_0000); }
  }

  /** The objects of one retype. */
  function Regions(kind: CapType, first: nat, stride: nat, size: nat, num: nat): (rs: seq<Region>)
  {
    seq(num, i requires 0 <= i < num => Region(kind, first + i * stride, size))
  }

  /** Every object is aligned for its kind and for the words in it, the objects follow each other
      without overlap, and all lie in [lo, hi). */
  ghost predicate Tidy(rs: seq<Region>, lo: nat, hi: nat)
  {
    && (forall i :: 0 <= i < |rs| ==> rs[i].base % Alignment(rs[i].kind) == 0 && rs[i].base % 8 == 0)
    && (forall i :: 0 <= i < |rs| ==> lo <= rs[i].base && rs[i].End() <= hi)
    && (forall i, j :: 0 <= i < j < |rs| ==> rs[i].End() <= rs[j].base)
  }

  lemma {:induction false} TidyAppend(rs: seq<Region>, more: seq<Region>, lo: nat, mid: nat, hi: nat)
    requires Tidy(rs, lo, mid) && Tidy(more, mid, hi) && lo <= mid <= hi
    ensures Tidy(rs + more, lo, hi)
  {
  }

  lemma {:induction false} StrideStep(i: nat, j: nat, stride: nat)
    requires i < j
    ensures i * stride + stride <= j * stride
  {
    MulMonotone(i + 1, j, stride);
  }

  lemma {:induction false} MultipleOf(base: nat, i: nat, stride: nat, a: nat)
    requires a > 0 && base % a == 0 && stride % a == 0
    ensures (base + i * stride) % a == 0
  {
    var b, s := base / a, stride / a;
    assert base + i * stride == (b + i * s) * a by {
      assert base == b * a && stride == s * a;
      assert i * (s * a) == (i * s) * a;
    }
    DivModUnique(base + i * stride, a, b + i * s, 0);
  }

  lemma {:induction false} AlignmentIs(kind: CapType)
    ensures Alignment(kind) == if kind.CNode? then 1 else if kind.PageTable? || kind.Page? then 4096 else 8
  {
    Pow2Small();
  }

  /** Objects one stride apart, each no larger than the stride, are tidy. */
  lemma {:induction false} RegionsTidy(kind: CapType, first: nat, stride: nat, size: nat, num: nat)
    requires first % Alignment(kind) == 0 && stride % Alignment(kind) == 0 && first % 8 == 0 && stride % 8 == 0
    requires num > 0 ==> size <= stride
    ensures Tidy(Regions(kind, first, stride, size, num), first, first + num * stride)
  {
    var rs := Regions(kind, first, stride, size, num);
    forall i | 0 <= i < num
      ensures rs[i].base % Alignment(kind) == 0 && rs[i].base % 8 == 0
      ensures first <= rs[i].base && rs[i].End() <= first + num * stride
    {
      MultipleOf(first, i, stride, Alignment(kind));
      MultipleOf(first, i, stride, 8);
      StrideStep(i, num, stride);
    }
    forall i, j | 0 <= i < j < num
      ensures rs[i].End() <= rs[j].base
    {
      StrideStep(i, j, stride);
    }
  }

  // ---------------------------------------------------------------- rounding the free index

  /** Rounding a kernel address up rounds the physical address up: the least multiple of the
      alignment that is not below it. */
  lemma {:induction false} AlignedFree(free: nat, kind: CapType)
    requires IsPhys(free) && PhysToKernel(free) + Alignment(kind) - 1 < WORD
    ensures var p := AlignUp(PhysToKernel(free), Alignment(kind));
            && KERNEL_V_ADDR_PFX + free <= p < KERNEL_V_ADDR_PFX + free + Alignment(kind)
            && (p - KERNEL_V_ADDR_PFX) % Alignment(kind) == 0
            && (free % 8 == 0 ==> (p - KERNEL_V_ADDR_PFX) % 8 == 0)
            && (free % Alignment(kind) == 0 ==> p == KERNEL_V_ADDR_PFX + free)
  {
    AlignmentIs(kind);
    AlignUpIsLeast(PhysToKernel(free), AlignBits(kind));
    var p := AlignUp(PhysToKernel(free), Alignment(kind));
    PrefixAligned(p - KERNEL_V_ADDR_PFX);
    PrefixAligned(free);
  }

  lemma {:induction false} PrefixAligned(p: nat)
    ensures (KERNEL_V_ADDR_PFX + p) % 4096 == p % 4096 && (KERNEL_V_ADDR_PFX + p) % 8 == p % 8
    ensures p % 4096 == 0 ==> p % 8 == 0
  {
    DivModUnique(KERNEL_V_ADDR_PFX + p, 4096, KERNEL_V_ADDR_PFX / 4096 + p / 4096, p % 4096);
    DivModUnique(KERNEL_V_ADDR_PFX + p, 8, KERNEL_V_ADDR_PFX / 8 + p / 8, p % 8);
  }

  /** The free index rounded up, as a physical address. */
  function FirstFree(free: nat, kind: CapType): (first: nat)
    requires IsPhys(free) && PhysToKernel(free) + Alignment(kind) - 1 < WORD
    ensures free <= first < free + Alignment(kind) && first % Alignment(kind) == 0
    ensures free % 8 == 0 ==> first % 8 == 0
    ensures free % Alignment(kind) == 0 ==> first == free
  {
    AlignedFree(free, kind);
    AlignUp(PhysToKernel(free), Alignment(kind)) - KERNEL_V_ADDR_PFX
  }

  // ---------------------------------------------------------------- retyping

  /** Where the objects of one retype go: the first one, their common size, the distance between
      them and the free index afterwards. */
  datatype Layout = Layout(first: nat, size: nat, stride: nat, end: nat) {
    function ObjectAt(i: nat): (a: nat) { first + i * stride }
  }

  function Times(a: nat, b: nat): (r: nat) { a * b }

  /** The outcome of retyping from a block of 2^bits bytes at addr used up to free.  The check for
      space looks at the total size of the objects, before rounding and with a stride of one object. */
  function Plan(addr: nat, bits: nat, free: nat, kind: CapType, userSize: nat, num: nat, tcbSize: nat): (r: Result<Layout>)
    requires !kind.Untyped? && tcbSize % 8 == 0 && IsPhys(addr) && IsPhys(free)
  {
    match SizeOf(kind, userSize, tcbSize)
    case None => Halt
    case Some(size) =>
      var stride := Times(num, size);
      if stride >= WORD || PhysToKernel(addr) + Pow2(bits) >= WORD || addr + Pow2(bits) < free then Halt
      else if addr + Pow2(bits) - free < stride then Err(NoMemory, 0)
      else if PhysToKernel(free) + Alignment(kind) - 1 >= WORD then Halt
      else
        var first := FirstFree(free, kind);
        var extent := Times(stride, num);
        if KERNEL_V_ADDR_PFX + first + extent >= WORD then Halt
        else Ok(Layout(first, size, stride, first + extent))
  }

  /** The condition under which num objects stay inside a block of 2^bits bytes at addr, over what the
      caller knows: the free index rounded up, num - 1 strides of the total size, and one object more
      do not pass the end. */
  predicate Fits(addr: nat, bits: nat, free: nat, kind: CapType, userSize: nat, num: nat, tcbSize: nat)
    requires !kind.Untyped? && tcbSize % 8 == 0 && IsPhys(free) && PhysToKernel(free) + Alignment(kind) - 1 < WORD
  {
    match SizeOf(kind, userSize, tcbSize)
    case None => false
    case Some(size) => num == 0 || FirstFree(free, kind) + Times(num - 1, Times(num, size)) + size <= addr + Pow2(bits)
  }

  /** What a plan guarantees: rounding up by less than the alignment, tidy objects, and a new free
      index that is not below the old one. */
  lemma {:induction false} PlanIsTidy(addr: nat, bits: nat, free: nat, kind: CapType, userSize: nat, num: nat, tcbSize: nat)
    requires !kind.Untyped? && tcbSize % 8 == 0 && IsPhys(addr) && IsPhys(free) && free % 8 == 0
    requires Plan(addr, bits, free, kind, userSize, num, tcbSize).Ok?
    ensures var l := Plan(addr, bits, free, kind, userSize, num, tcbSize).value;
            && free <= l.first < free + Alignment(kind) && free <= l.end && IsPhys(l.end) && l.end % 8 == 0
            && (free % Alignment(kind) == 0 ==> l.first == free)
            && Tidy(Regions(kind, l.first, l.stride, l.size, num), l.first, l.end)
  {
    var l := Plan(addr, bits, free, kind, userSize, num, tcbSize).value;
    LayoutIsTidy(kind, l, num);
  }

  lemma {:induction false} LayoutIsTidy(kind: CapType, l: Layout, num: nat)
    requires l.first % Alignment(kind) == 0 && l.first % 8 == 0
    requires l.size % 8 == 0 && (kind.PageTable? || kind.Page? ==> l.size == 4096)
    requires l.stride == num * l.size && l.end == l.first + l.stride * num
    ensures l.end % 8 == 0 && l.first <= l.end && Tidy(Regions(kind, l.first, l.stride, l.size, num), l.first, l.end)
  {
    StrideAligned(kind, l.size, num);
    if num > 0 { MulMonotone(1, num, l.size); }
    RegionsTidy(kind, l.first, l.stride, l.size, num);
    MultipleOf(l.first, num, l.stride, 8);
  }

  lemma {:induction false} StrideAligned(kind: CapType, size: nat, num: nat)
    requires size % 8 == 0 && (kind.PageTable? || kind.Page? ==> size == 4096)
    ensures (num * size) % Alignment(kind) == 0 && (num * size) % 8 == 0
  {
    AlignmentIs(kind);
    MultipleOf(0, num, size, 8);
    MultipleOf(0, num, size, Alignment(kind));
  }

  /** The last object ends last. */
  lemma {:induction false} LastIsLast(first: nat, stride: nat, size: nat, num: nat, kind: CapType, hi: nat)
    requires num > 0
    ensures (forall i :: 0 <= i < num ==> Regions(kind, first, stride, size, num)[i].End() <= hi) <==>
            first + Times(num - 1, stride) + size <= hi
  {
    var rs := Regions(kind, first, stride, size, num);
    assert rs[num - 1].End() == first + (num - 1) * stride + size;
    forall i | 0 <= i < num
      ensures rs[i].End() <= rs[num - 1].End()
    {
      MulMonotone(i, num - 1, stride);
    }
  }

  /** All objects of a plan lie inside the block exactly under the condition on the arguments. */
  lemma {:induction false} InsideExactly(addr: nat, bits: nat, free: nat, kind: CapType, userSize: nat, num: nat, tcbSize: nat)
    requires !kind.Untyped? && tcbSize % 8 == 0 && IsPhys(addr) && addr <= free && IsPhys(free)
    requires Plan(addr, bits, free, kind, userSize, num, tcbSize).Ok?
    ensures PhysToKernel(free) + Alignment(kind) - 1 < WORD
    ensures var l := Plan(addr, bits, free, kind, userSize, num, tcbSize).value;
            var rs := Regions(kind, l.first, l.stride, l.size, num);
            (forall i :: 0 <= i < |rs| ==> addr <= rs[i].base && rs[i].End() <= addr + Pow2(bits)) <==>
            Fits(addr, bits, free, kind, userSize, num, tcbSize)
  {
    var l := Plan(addr, bits, free, kind, userSize, num, tcbSize).value;
    if num > 0 {
      LastIsLast(l.first, l.stride, l.size, num, kind, addr + Pow2(bits));
      InsideOrNot(l.first, l.stride, l.size, num, kind, addr, addr + Pow2(bits));
    }
  }

  /** Nothing lies below the block, so only the end matters. */
  lemma {:induction false} InsideOrNot(first: nat, stride: nat, size: nat, num: nat, kind: CapType, lo: nat, hi: nat)
    requires lo <= first
    ensures var rs := Regions(kind, first, stride, size, num);
            (forall i :: 0 <= i < num ==> lo <= rs[i].base && rs[i].End() <= hi) <==> forall i :: 0 <= i < num ==> rs[i].End() <= hi
  {
    var rs := Regions(kind, first, stride, size, num);
    forall i | 0 <= i < num
      ensures lo <= rs[i].base
    {
      assert rs[i].base == first + i * stride;
    }
  }

  /** One object from a free index that is aligned for it always fits: the kernel's check is then
      exact.  Free indices are multiples of 8, so this covers all kinds but pages and tables. */
  lemma {:induction false} OneFits(addr: nat, bits: nat, free: nat, kind: CapType, userSize: nat, tcbSize: nat)
    requires !kind.Untyped? && tcbSize % 8 == 0 && IsPhys(addr) && IsPhys(free) && free % 8 == 0
    requires Plan(addr, bits, free, kind, userSize, 1, tcbSize).Ok?
    requires free % Alignment(kind) == 0 || (!kind.PageTable? && !kind.Page?)
    ensures PhysToKernel(free) + Alignment(kind) - 1 < WORD && Fits(addr, bits, free, kind, userSize, 1, tcbSize)
  {
    AlignmentIs(kind);
    PlanIsTidy(addr, bits, free, kind, userSize, 1, tcbSize);
  }

  /** The check is too weak for several objects at once: whenever a block starts on a page boundary
      and is exactly as large as the pages asked for, it passes and all but the first page lie outside. */
  lemma {:induction false} CheckIsTooWeak(addr: nat, bits: nat, num: nat)
    requires IsFrame(addr) && num >= 2 && Pow2(bits) == num * 4096 && addr + num * 4096 * num < 0x8000_0000_0000
    ensures var r := Plan(addr, bits, addr, Page, 0, num, 8);
            r.Ok? && r.value == Layout(addr, 4096, Pow2(bits), addr + Pow2(bits) * num)
    ensures PhysToKernel(addr) + Alignment(Page) - 1 < WORD && !Fits(addr, bits, addr, Page, 0, num, 8)
  {
    AlignmentIs(Page);
    MulMonotone(1, num, num * 4096);
    MulMonotone(1, num - 1, num * 4096);
  }

  /** Single pages from an aligned free index come one after the other until the block is used up. */
  lemma {:induction false} PageAfterPage(addr: nat, bits: nat, free: nat, kind: CapType, userSize: nat, tcbSize: nat)
    requires (kind.Page? || kind.PageTable?) && tcbSize % 8 == 0 && IsPhys(addr) && IsPhys(free) && free % 4096 == 0
    requires free <= addr + Pow2(bits) && IsPhys(addr + Pow2(bits))
    ensures Plan(addr, bits, free, kind, userSize, 1, tcbSize) ==
            if addr + Pow2(bits) - free < 4096 then Err(NoMemory, 0) else Ok(Layout(free, 4096, 4096, free + 4096))
  {
    AlignmentIs(kind);
  }

  /** Unless a number leaves the word, retyping is granted exactly if all objects together are no larger than what is
      left of the block, and refused for want of memory otherwise.  It starts at the rounded free index and uses up as
      many distances as there are objects, each of their total size. */
  lemma {:induction false} GrantedExactly(addr: nat, bits: nat, free: nat, kind: CapType, userSize: nat, num: nat, tcbSize: nat)
    requires !kind.Untyped? && tcbSize % 8 == 0 && addr <= free <= addr + Pow2(bits) && addr + Pow2(bits) + 4096 <= 0x8000_0000_0000
    requires SizeOf(kind, userSize, tcbSize).Some?
    requires var stride := num * SizeOf(kind, userSize, tcbSize).value; free + 4096 + Times(stride, num) < 0x8000_0000_0000
    ensures var left, size := addr + Pow2(bits) - free, SizeOf(kind, userSize, tcbSize).value;
            && (Plan(addr, bits, free, kind, userSize, num, tcbSize).Ok? <==> num * size <= left)
            && (left < num * size ==> Plan(addr, bits, free, kind, userSize, num, tcbSize) == Err(NoMemory, 0))
    ensures Plan(addr, bits, free, kind, userSize, num, tcbSize).Ok? ==>
              var l, size := Plan(addr, bits, free, kind, userSize, num, tcbSize).value, SizeOf(kind, userSize, tcbSize).value;
              && PhysToKernel(free) + Alignment(kind) - 1 < WORD && l.first == FirstFree(free, kind) && l.size == size
              && l.stride == num * size && l.end == l.first + l.stride * num
  {
    var stride := num * SizeOf(kind, userSize, tcbSize).value;
    AlignmentIs(kind);
    if num > 0 { MulMonotone(1, num, stride); }
  }

  // ---------------------------------------------------------------- series of retypes

  datatype Request = Request(kind: CapType, userSize: nat, num: nat)

  /** The free index after a series of requests, of which some may be refused, and all objects made. */
  function Series(addr: nat, bits: nat, free: nat, reqs: seq<Request>, tcbSize: nat): (r: (nat, seq<Region>))
    requires IsPhys(addr) && IsPhys(free) && tcbSize % 8 == 0 && forall i :: 0 <= i < |reqs| ==> !reqs[i].kind.Untyped?
    ensures IsPhys(r.0)
  {
    if reqs == [] then (free, [])
    else
      var q := reqs[|reqs| - 1];
      var (f, rs) := Series(addr, bits, free, reqs[..|reqs| - 1], tcbSize);
      match Plan(addr, bits, f, q.kind, q.userSize, q.num, tcbSize)
      case Ok(l) => (l.end, rs + Regions(q.kind, l.first, l.stride, l.size, q.num))
      case _ => (f, rs)
  }

  /** Over any series of requests, of any kinds and numbers, all objects ever made are aligned and
      pairwise disjoint and lie below a free index that has never gone back. */
  lemma {:induction false} SeriesIsTidy(addr: nat, bits: nat, free: nat, reqs: seq<Request>, tcbSize: nat)
    requires IsPhys(addr) && IsPhys(free) && free % 8 == 0 && tcbSize % 8 == 0
    requires forall i :: 0 <= i < |reqs| ==> !reqs[i].kind.Untyped?
    ensures var (f, rs) := Series(addr, bits, free, reqs, tcbSize); free <= f && f % 8 == 0 && Tidy(rs, free, f)
  {
    if reqs != [] {
      var q, before := reqs[|reqs| - 1], reqs[..|reqs| - 1];
      SeriesIsTidy(addr, bits, free, before, tcbSize);
      var (f, rs) := Series(addr, bits, free, before, tcbSize);
      if Plan(addr, bits, f, q.kind, q.userSize, q.num, tcbSize).Ok? {
        PlanIsTidy(addr, bits, f, q.kind, q.userSize, q.num, tcbSize);
        var l := Plan(addr, bits, f, q.kind, q.userSize, q.num, tcbSize).value;
        var more := Regions(q.kind, l.first, l.stride, l.size, q.num);
        TidyFrom(more, f, l.first, l.end);
        TidyAppend(rs, more, free, f, l.end);
      }
    }
  }

  /** Hands out the capabilities of one retype, one after another. */
  class CapGenerator {
    const kind: CapType
    const userSize: nat
    const stride: nat
    var num: nat
    var address: nat

    constructor (kind: CapType, num: nat, first: nat, userSize: nat, stride: nat)
      ensures this.kind == kind && this.num == num && this.address == first
      ensures this.userSize == userSize && this.stride == stride
    {
      this.kind, this.num, this.address, this.userSize, this.stride := kind, num, first, userSize, stride;
    }

    method Next() returns (r: Option<Cap>)
      modifies this
      ensures old(num) == 0 ==> r == None && num == 0 && address == old(address)
      ensures old(num) > 0 ==> r == Some(Cap(kind, old(address), NewWord(kind, userSize))) && Unused(r.value, userSize)
      ensures old(num) > 0 ==> num == old(num) - 1 && address == old(address) + stride
    {
      if num == 0 {
        return None;
      }
      r := Some(Cap(kind, address, NewWord(kind, userSize)));
      NewIsUnused(kind, address, userSize);
      address := address + stride;
      num := num - 1;
    }
  }

  /** The slots after the new capabilities of a retype have been put at index, index + 1, ... */
  ghost predicate Inserted(slots: seq<Slot>, slots': seq<Slot>, index: nat, kind: CapType, userSize: nat, l: Layout, num: nat)
    requires index + num <= |slots|
  {
    && |slots'| == |slots|
    && (forall i :: index <= i < index + num ==> slots'[i] == Full(Cap(kind, l.ObjectAt(i - index), NewWord(kind, userSize))))
    && (forall i :: 0 <= i < |slots| && !(index <= i < index + num) ==> slots'[i] == slots[i])
  }

  /** A capability to untyped memory. */
  class UntypedCap {
    const addr: nat
    const tcbSize: nat
    /** Free index and block exponent. */
    var word: nat
    /** Every object made from this memory. */
    ghost var made: seq<Region>

    function Free(): (p: nat)
      reads this
    {
      UntypedFree(word)
    }

    function Exponent(): (k: nat)
      reads this
      ensures k < 64
    {
      UntypedBits(word)
    }

    ghost predicate Valid()
      reads this
    {
      && IsPhys(addr) && addr <= Free() && IsPhys(Free()) && Free() % 8 == 0 && tcbSize % 8 == 0 && tcbSize > 0
      && !UntypedIsDevice(word)
      && Tidy(made, addr, Free())
    }

    constructor (addr: nat, bits: nat, tcbSize: nat)
      requires IsPhys(addr) && addr % 8 == 0 && bits < 64 && tcbSize % 8 == 0 && tcbSize > 0
      ensures Valid() && this.addr == addr && this.tcbSize == tcbSize && Free() == addr && Exponent() == bits && made == []
    {
      this.addr := addr;
      this.tcbSize := tcbSize;
      word := UntypedWord(addr, bits);
      made := [];
      UntypedRoundTrip(addr, bits);
    }

    /** The untyped memory that a capability's word describes. */
    constructor OfWord(addr: nat, word: nat, tcbSize: nat)
      requires IsPhys(addr) && addr <= UntypedFree(word) && IsPhys(UntypedFree(word)) && UntypedFree(word) % 8 == 0
      requires !UntypedIsDevice(word) && tcbSize % 8 == 0 && tcbSize > 0
      ensures Valid() && this.addr == addr && this.tcbSize == tcbSize && this.word == word && made == []
    {
      this.addr := addr;
      this.tcbSize := tcbSize;
      this.word := word;
      made := [];
    }

    /** Reserve memory for num objects.  Over every sequence of retypes the objects stay aligned and
        apart (`Valid`), the free index never goes back and the block keeps its size; on failure
        nothing changes. */
    method Retype(kind: CapType, userSize: nat, num: nat) returns (r: Result<CapGenerator>)
      requires Valid() && !kind.Untyped?
      modifies this
      ensures Valid() && Exponent() == old(Exponent()) && old(Free()) <= Free()
      ensures var p := Plan(addr, old(Exponent()), old(Free()), kind, userSize, num, tcbSize);
              match p
              case Ok(l) =>
                && r.Ok? && fresh(r.value) && r.value.kind == kind && r.value.userSize == userSize
                && r.value.num == num && r.value.address == l.first && r.value.stride == l.stride
                && Free() == l.end && word == UntypedWord(l.end, old(Exponent()))
                && made == old(made) + Regions(kind, l.first, l.stride, l.size, num)
              case Err(e, d) => r == Err(e, d) && word == old(word) && made == old(made)
              case Halt => r == Halt && word == old(word) && made == old(made)
    {
      var size := SizeOf(kind, userSize, tcbSize);
      if size.None? { return Halt; }
      var stride := Times(num, size.value);
      if stride >= WORD { return Halt; }
      var blockEnd := PhysToKernel(addr) + Pow2(Exponent());
      if blockEnd >= WORD || blockEnd < PhysToKernel(Free()) { return Halt; }
      if blockEnd - PhysToKernel(Free()) < stride { return Err(NoMemory, 0); }
      if PhysToKernel(Free()) + Alignment(kind) - 1 >= WORD { return Halt; }
      var first := FirstFree(Free(), kind);
      var extent := Times(stride, num);
      if PhysToKernel(first) + extent >= WORD { return Halt; }
      var gen := new CapGenerator(kind, num, first, userSize, stride);
      MoveFree(kind, userSize, num, first + extent);
      return Ok(gen);
    }

    /** Note the new free index; the exponent is written back as the logarithm of the block size. */
    method MoveFree(ghost kind: CapType, ghost userSize: nat, ghost num: nat, end: nat)
      requires Valid() && !kind.Untyped?
      requires var p := Plan(addr, Exponent(), Free(), kind, userSize, num, tcbSize); p.Ok? && p.value.end == end
      modifies this
      ensures Valid() && Exponent() == old(Exponent()) && Free() == end && old(Free()) <= Free()
      ensures word == UntypedWord(end, old(Exponent()))
      ensures var l := Plan(addr, old(Exponent()), old(Free()), kind, userSize, num, tcbSize).value;
              made == old(made) + Regions(kind, l.first, l.stride, l.size, num)
    {
      ghost var l := Plan(addr, Exponent(), Free(), kind, userSize, num, tcbSize).value;
      ghost var more := Regions(kind, l.first, l.stride, l.size, num);
      PlanIsTidy(addr, Exponent(), Free(), kind, userSize, num, tcbSize);
      TidyFrom(more, Free(), l.first, l.end);
      TidyAppend(made, more, addr, Free(), l.end);
      UntypedRoundTrip(end, Exponent());
      Ilog2OfPow2(Exponent());
      word := UntypedWord(end, Ilog2(Pow2(Exponent())));
      made := made + more;
    }

    /** Make num objects and put their capabilities into consecutive slots. */
    method RetypeAndInsert(slots: seq<Slot>, index: nat, kind: CapType, userSize: nat, num: nat) returns (r: Result<seq<Slot>>)
      requires Valid() && !kind.Untyped? && index + num <= |slots|
      modifies this
      ensures Valid() && Exponent() == old(Exponent()) && old(Free()) <= Free()
      ensures var p := Plan(addr, old(Exponent()), old(Free()), kind, userSize, num, tcbSize);
              match p
              case Ok(l) =>
                && r.Ok? && Inserted(slots, r.value, index, kind, userSize, l, num)
                && (forall i :: index <= i < index + num ==> r.value[i].Full? && Unused(r.value[i].cap, userSize))
                && Free() == l.end && word == UntypedWord(l.end, old(Exponent()))
                && made == old(made) + Regions(kind, l.first, l.stride, l.size, num)
              case Err(e, d) => r == Err(e, d) && word == old(word) && made == old(made)
              case Halt => r == Halt && word == old(word) && made == old(made)
    {
      ghost var p := Plan(addr, Exponent(), Free(), kind, userSize, num, tcbSize);
      var g := Retype(kind, userSize, num);
      match g
      case Err(e, d) => return Err(e, d);
      case Halt => return Halt;
      case Ok(gen) =>
        var filled := InsertAll(gen, slots, index, p.value);
        forall i | index <= i < index + num
          ensures filled[i].Full? && Unused(filled[i].cap, userSize)
        {
          NewIsUnused(kind, p.value.ObjectAt(i - index), userSize);
        }
        return Ok(filled);
    }
  }

  /** Put everything a generator hands out into consecutive slots. */
  method InsertAll(gen: CapGenerator, slots: seq<Slot>, index: nat, ghost l: Layout) returns (slots': seq<Slot>)
    requires index + gen.num <= |slots| && gen.address == l.first && gen.stride == l.stride
    modifies gen
    ensures Inserted(slots, slots', index, gen.kind, gen.userSize, l, old(gen.num))
  {
    ghost var num := gen.num;
    slots' := slots;
    var i := 0;
    var cap := gen.Next();
    while cap.Some?
      invariant i <= num && Inserted(slots, slots', index, gen.kind, gen.userSize, l, i)
      invariant cap.None? ==> i == num
      invariant cap.Some? ==> i < num && gen.num == num - i - 1 && gen.address == l.ObjectAt(i + 1)
      invariant cap.Some? ==> cap.value == Cap(gen.kind, l.ObjectAt(i), NewWord(gen.kind, gen.userSize))
      decreases num - i
    {
      slots' := slots'[index + i := Full(cap.value)];
      i := i + 1;
      cap := gen.Next();
      assert (i + 1) * l.stride == i * l.stride + l.stride;
    }
  }

  lemma {:induction false} TidyFrom(rs: seq<Region>, lo: nat, first: nat, hi: nat)
    requires Tidy(rs, first, hi) && lo <= first
    ensures Tidy(rs, lo, hi)
  {
  }
}
