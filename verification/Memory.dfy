/**
 Who owns memory.  RAM is cleared once, at boot.  After that it is only ever handed out: in
 pages by the bump allocator, then as objects retyped from the untyped blocks made of what is
 left.  Nothing is taken back.  Tables and pages of the boot loader and all new CNodes are used
 as empty without being cleared, which is right because everything not yet handed out is still
 zero.
 */
module Memory {
  import opened Kinds
  import opened Bits
  import opened Packing
  import opened CSpace
  import opened Boot
  import opened Retyping

  /** A range of memory that has been handed out. */
  datatype Range = Range(base: nat, size: nat) {
    function End(): (e: nat) { base + size }
    predicate Has(a: nat) { base <= a < End() }
  }

  predicate Apart(x: Range, y: Range) { x.End() <= y.base || y.End() <= x.base }

  /** An untyped block of which the part below `free` is used. */
  datatype Used = Used(block: Block, free: nat)

  /** The size of a thread control block is a whole number of words. */
  type Words = n: nat | n % 8 == 0

  datatype Mem = Mem(
    tcbSize: Words,
    bytes: nat -> nat,
    lo: nat,
    hi: nat,
    next: nat,
    booting: bool,
    blocks: seq<Used>,
    given: seq<Range>)

  datatype Op =
    | Alloc(pages: nat)
    | EndBoot(made: seq<Block>, tail: nat)
    | Retype(b: nat, kind: CapType, userSize: nat, num: nat)
    | Write(a: nat, v: nat)

  ghost predicate Given(given: seq<Range>, a: nat) { exists i :: 0 <= i < |given| && given[i].Has(a) }

  /** RAM just cleared, none of it handed out. */
  predicate Cleared(m: Mem)
  {
    && m.lo < m.hi < 0x8000_0000_0000 && m.lo % 8 == 0 && m.next == m.lo && m.booting && m.blocks == [] && m.given == []
    && forall a :: m.lo <= a < m.hi ==> m.bytes(a) == 0
  }

  function PlanOf(u: Used, tcbSize: Words, kind: CapType, userSize: nat, num: nat): (r: Result<Layout>)
    requires !kind.Untyped? && IsPhys(u.block.base) && IsPhys(u.free)
  {
    Plan(u.block.base, u.block.bits, u.free, kind, userSize, num, tcbSize)
  }

  /** Pages are handed out while there are any; at the end of booting the rest is cut into blocks;
      objects must fit their block; only what has been handed out is written. */
  ghost predicate Enabled(m: Mem, op: Op)
  {
    match op
    case Alloc(n) => m.booting && m.next + PAGE_SIZE * n <= m.hi
    case EndBoot(made, tail) => m.booting && Covers(made, m.next, tail) && tail <= m.hi && forall i :: 0 <= i < |made| ==> made[i].bits >= 12
    case Retype(b, kind, userSize, num) =>
      && b < |m.blocks| && !kind.Untyped? && IsPhys(m.blocks[b].block.base) && IsPhys(m.blocks[b].free)
      && PlanOf(m.blocks[b], m.tcbSize, kind, userSize, num).Ok?
      && Fits(m.blocks[b].block.base, m.blocks[b].block.bits, m.blocks[b].free, kind, userSize, num, m.tcbSize)
    case Write(a, _) => Given(m.given, a)
  }

  function Ranges(rs: seq<Region>): (gs: seq<Range>)
    ensures |gs| == |rs|
  {
    seq(|rs|, i requires 0 <= i < |rs| => Range(rs[i].base, rs[i].size))
  }

  function Fresh(made: seq<Block>): (us: seq<Used>)
    ensures |us| == |made|
  {
    seq(|made|, i requires 0 <= i < |made| => Used(made[i], made[i].base))
  }

  /** What an operation hands out. */
  ghost function HandsOut(m: Mem, op: Op): (gs: seq<Range>)
    requires Enabled(m, op)
  {
    match op
    case Alloc(n) => [Range(m.next, PAGE_SIZE * n)]
    case Retype(b, kind, userSize, num) =>
      var l := PlanOf(m.blocks[b], m.tcbSize, kind, userSize, num).value;
      Ranges(Regions(kind, l.first, l.stride, l.size, num))
    case _ => []
  }

  ghost function Step(m: Mem, op: Op): (m': Mem)
    requires Enabled(m, op)
  {
    match op
    case Alloc(n) => m.(next := m.next + PAGE_SIZE * n, given := m.given + HandsOut(m, op))
    case EndBoot(made, _) => m.(booting := false, blocks := Fresh(made))
    case Retype(b, kind, userSize, num) =>
      var l := PlanOf(m.blocks[b], m.tcbSize, kind, userSize, num).value;
      m.(blocks := m.blocks[b := m.blocks[b].(free := l.end)], given := m.given + HandsOut(m, op))
    case Write(a, v) => m.(bytes := x => if x == a then v else m.bytes(x))
  }

  // ---------------------------------------------------------------- the invariant

  /** Blocks follow each other inside RAM. */
  ghost predicate BlocksOk(blocks: seq<Used>, lo: nat, hi: nat)
  {
    && (forall i :: 0 <= i < |blocks| ==>
          && lo <= blocks[i].block.base <= blocks[i].free && blocks[i].block.End() <= hi
          && IsPhys(blocks[i].free) && blocks[i].free % 8 == 0)
    && (forall i, j :: 0 <= i < j < |blocks| ==> blocks[i].block.End() <= blocks[j].block.base)
  }

  /** What has been handed out lies in RAM, without overlap. */
  ghost predicate GivenOk(given: seq<Range>, lo: nat, hi: nat)
  {
    && (forall i :: 0 <= i < |given| ==> lo <= given[i].base && given[i].End() <= hi)
    && (forall i, j :: 0 <= i < j < |given| ==> Apart(given[i], given[j]))
  }

  /** None of it lies in the unused part of a block, or, while booting, above the next page. */
  ghost predicate UnusedOk(m: Mem)
  {
    && (forall i, b :: 0 <= i < |m.given| && 0 <= b < |m.blocks| ==>
          m.given[i].End() <= m.blocks[b].free || m.blocks[b].block.End() <= m.given[i].base)
    && (m.booting ==> m.blocks == [] && forall i :: 0 <= i < |m.given| ==> m.given[i].End() <= m.next)
  }

  /** All memory that has not been handed out is zero. */
  ghost predicate RestZero(m: Mem)
  {
    forall a :: m.lo <= a < m.hi && !Given(m.given, a) ==> m.bytes(a) == 0
  }

  ghost predicate Inv(m: Mem)
  {
    && m.lo <= m.next <= m.hi < 0x8000_0000_0000 && m.next % 8 == 0
    && BlocksOk(m.blocks, m.lo, m.hi) && GivenOk(m.given, m.lo, m.hi) && UnusedOk(m) && RestZero(m)
  }

  lemma {:induction false} ClearedInv(m: Mem)
    requires Cleared(m)
    ensures Inv(m)
  {
  }

  // ---------------------------------------------------------------- handing out

  /** New ranges lie in RAM, apart from each other and from everything handed out before. */
  ghost predicate NewOk(m: Mem, gs: seq<Range>)
  {
    && GivenOk(gs, m.lo, m.hi)
    && forall i, j :: 0 <= i < |m.given| && 0 <= j < |gs| ==> Apart(m.given[i], gs[j])
  }

  lemma {:induction false} GivenAppend(m: Mem, gs: seq<Range>)
    requires GivenOk(m.given, m.lo, m.hi) && NewOk(m, gs)
    ensures GivenOk(m.given + gs, m.lo, m.hi)
  {
  }

  /** What is apart from all that has been handed out is still zero. */
  lemma {:induction false} NewIsZero(m: Mem, gs: seq<Range>, j: nat, a: nat)
    requires RestZero(m) && NewOk(m, gs) && j < |gs| && gs[j].Has(a)
    ensures m.bytes(a) == 0
  {
    assert !Given(m.given, a);
  }

  lemma {:induction false} StillGiven(given: seq<Range>, gs: seq<Range>, a: nat)
    ensures Given(given, a) ==> Given(given + gs, a)
  {
    if Given(given, a) {
      var i :| 0 <= i < |given| && given[i].Has(a);
      assert (given + gs)[i].Has(a);
    }
  }

  lemma {:induction false} MoreGiven(m: Mem, gs: seq<Range>)
    requires RestZero(m)
    ensures RestZero(m.(given := m.given + gs))
  {
    forall a
      ensures Given(m.given, a) ==> Given(m.given + gs, a)
    {
      StillGiven(m.given, gs, a);
    }
  }

  /** The objects of a retype that fits lie in the unused part of their block. */
  lemma {:induction false} RetypeInBlock(m: Mem, op: Op)
    requires Inv(m) && Enabled(m, op) && op.Retype?
    ensures var u, gs := m.blocks[op.b], HandsOut(m, op);
            var l := PlanOf(u, m.tcbSize, op.kind, op.userSize, op.num).value;
            && u.free <= l.end && IsPhys(l.end) && l.end % 8 == 0
            && (forall i :: 0 <= i < |gs| ==> u.free <= gs[i].base && gs[i].End() <= u.block.End() && gs[i].End() <= l.end)
            && (forall i, j :: 0 <= i < j < |gs| ==> gs[i].End() <= gs[j].base)
  {
    var u := m.blocks[op.b];
    var l := PlanOf(u, m.tcbSize, op.kind, op.userSize, op.num).value;
    var rs := Regions(op.kind, l.first, l.stride, l.size, op.num);
    PlanIsTidy(u.block.base, u.block.bits, u.free, op.kind, op.userSize, op.num, m.tcbSize);
    InsideExactly(u.block.base, u.block.bits, u.free, op.kind, op.userSize, op.num, m.tcbSize);
    RangesOf(rs, u.free, u.block.base, u.block.End(), l.first, l.end);
  }

  lemma {:induction false} RangesOf(rs: seq<Region>, free: nat, base: nat, blockEnd: nat, first: nat, end: nat)
    requires Tidy(rs, first, end) && free <= first && forall i :: 0 <= i < |rs| ==> base <= rs[i].base && rs[i].End() <= blockEnd
    ensures forall i :: 0 <= i < |rs| ==> free <= Ranges(rs)[i].base && Ranges(rs)[i].End() <= blockEnd && Ranges(rs)[i].End() <= end
    ensures forall i, j :: 0 <= i < j < |rs| ==> Ranges(rs)[i].End() <= Ranges(rs)[j].base
  {
  }

  lemma {:induction false} HandsOutOk(m: Mem, op: Op)
    requires Inv(m) && Enabled(m, op)
    ensures NewOk(m, HandsOut(m, op))
  {
    if op.Retype? {
      RetypeInBlock(m, op);
    }
  }

  /** Whatever is handed out, at boot or by retyping, is zero: boot-time page tables and pages, and
      all retyped objects. */
  lemma {:induction false} HandedOutIsZero(m: Mem, op: Op, j: nat, a: nat)
    requires Inv(m) && Enabled(m, op) && j < |HandsOut(m, op)| && HandsOut(m, op)[j].Has(a)
    ensures Step(m, op).bytes(a) == 0
  {
    HandsOutOk(m, op);
    NewIsZero(m, HandsOut(m, op), j, a);
  }

  /** So all slots of a new CNode are empty: the byte that tells, wherever it is in the slot, is zero. */
  lemma {:induction false} NewCNodeIsEmpty(m: Mem, op: Op, j: nat, slot: nat, offset: nat)
    requires Inv(m) && Enabled(m, op) && op.Retype? && op.kind.CNode? && j < |HandsOut(m, op)|
    requires slot < Pow2(op.userSize) && offset < 32
    ensures Step(m, op).bytes(HandsOut(m, op)[j].base + slot * 32 + offset) == 0
  {
    MulMonotone(slot + 1, Pow2(op.userSize), 32);
    HandedOutIsZero(m, op, j, HandsOut(m, op)[j].base + slot * 32 + offset);
  }

  // ---------------------------------------------------------------- runs

  lemma {:induction false} CoversInside(made: seq<Block>, start: nat, stop: nat)
    requires Covers(made, start, stop)
    ensures start <= stop
    ensures forall i :: 0 <= i < |made| ==> start <= made[i].base && made[i].End() <= stop
    ensures forall i, j :: 0 <= i < j < |made| ==> made[i].End() <= made[j].base
  {
    if made != [] {
      CoversInside(made[1..], made[0].End(), stop);
    }
  }

  lemma {:induction false} CoversAligned(made: seq<Block>, start: nat, stop: nat)
    requires Covers(made, start, stop) && start % 8 == 0 && forall i :: 0 <= i < |made| ==> made[i].bits >= 12
    ensures forall i :: 0 <= i < |made| ==> made[i].base % 8 == 0
  {
    if made != [] {
      Pow2Small();
      Pow2Add(3, made[0].bits - 3);
      MultipleOf(start, Pow2(made[0].bits - 3), 8, 8);
      CoversAligned(made[1..], made[0].End(), stop);
    }
  }

  lemma {:induction false} EndBootKeeps(m: Mem, op: Op)
    requires Inv(m) && Enabled(m, op) && op.EndBoot?
    ensures Inv(Step(m, op))
  {
    CoversInside(op.made, m.next, op.tail);
    CoversAligned(op.made, m.next, op.tail);
  }

  lemma {:induction false} RetypeKeeps(m: Mem, op: Op)
    requires Inv(m) && Enabled(m, op) && op.Retype?
    ensures Inv(Step(m, op))
  {
    HandsOutOk(m, op);
    RetypeInBlock(m, op);
    GivenAppend(m, HandsOut(m, op));
    MoreGiven(m, HandsOut(m, op));
  }

  lemma {:induction false} AllocKeeps(m: Mem, op: Op)
    requires Inv(m) && Enabled(m, op) && op.Alloc?
    ensures Inv(Step(m, op))
  {
    HandsOutOk(m, op);
    GivenAppend(m, HandsOut(m, op));
    MoreGiven(m, HandsOut(m, op));
  }

  lemma {:induction false} StepKeeps(m: Mem, op: Op)
    requires Inv(m) && Enabled(m, op)
    ensures Inv(Step(m, op))
  {
    match op
    case Alloc(_) => AllocKeeps(m, op);
    case EndBoot(_, _) => EndBootKeeps(m, op);
    case Retype(_, _, _, _) => RetypeKeeps(m, op);
    case Write(_, _) =>
  }

  /** The operations can follow each other from m. */
  ghost predicate Runs(m: Mem, ops: seq<Op>)
    decreases |ops|
  {
    ops == [] || (Enabled(m, ops[0]) && Runs(Step(m, ops[0]), ops[1..]))
  }

  ghost function Last(m: Mem, ops: seq<Op>): (m': Mem)
    requires Runs(m, ops)
    decreases |ops|
  {
    if ops == [] then m else Last(Step(m, ops[0]), ops[1..])
  }

  lemma {:induction false} RunKeepsInv(m: Mem, ops: seq<Op>)
    requires Inv(m) && Runs(m, ops)
    ensures Inv(Last(m, ops))
    decreases |ops|
  {
    if ops != [] {
      StepKeeps(m, ops[0]);
      RunKeepsInv(Step(m, ops[0]), ops[1..]);
    }
  }

  /** Over every run from cleared RAM, with any writes to what has been handed out: all ranges ever
      handed out are disjoint, and the memory outside them is zero. */
  lemma {:induction false} UnusedMemoryIsZero(m: Mem, ops: seq<Op>)
    requires Cleared(m) && Runs(m, ops)
    ensures var m' := Last(m, ops);
            && (forall i, j :: 0 <= i < j < |m'.given| ==> Apart(m'.given[i], m'.given[j]))
            && (forall a :: m'.lo <= a < m'.hi && !Given(m'.given, a) ==> m'.bytes(a) == 0)
  {
    ClearedInv(m);
    RunKeepsInv(m, ops);
  }
}
