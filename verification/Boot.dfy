/**
 Physical memory at boot: the bump allocator, and the generator that cuts what is left
 into power-of-two untyped blocks.
 */
module Boot {
  import opened Kinds
  import opened Bits
  import opened Packing

  class BumpAllocator {
    var start: nat
    const end: nat

    constructor (freeRam: nat, freeRamEnd: nat)
      requires freeRam < freeRamEnd
      ensures start == freeRam && end == freeRamEnd
    {
      start, end := freeRam, freeRamEnd;
    }

    predicate Exhausted()
      reads this
    {
      start > end
    }

    /** Hand out the next n pages; running past the end stops the kernel. */
    method AllocatePages(n: nat) returns (r: Result<nat>)
      modifies this
      ensures start == old(start) + PAGE_SIZE * n
      ensures r == if start <= end then Ok(old(start)) else Halt
    {
      var ret := start;
      start := start + PAGE_SIZE * n;
      if start > end {
        return Halt;
      }
      return Ok(ret);
    }
  }

  // ---------------------------------------------------------------- untyped blocks

  /** A block of 2^bits bytes. */
  datatype Block = Block(base: nat, bits: nat) {
    function Size(): (n: nat)
      ensures n > 0
    {
      Pow2(bits)
    }
    function End(): (n: nat) { base + Size() }
  }

  /** The blocks cover [start, stop) without gap or overlap, in order. */
  predicate Covers(blocks: seq<Block>, start: nat, stop: nat)
  {
    if blocks == [] then start == stop
    else blocks[0].base == start && Covers(blocks[1..], blocks[0].End(), stop)
  }

  predicate Decreasing(blocks: seq<Block>)
  {
    forall i, j :: 0 <= i < j < |blocks| ==> blocks[i].bits > blocks[j].bits
  }

  class UntypedGenerator {
    var start: nat
    const end: nat
    var slot: nat
    const slotMax: nat

    constructor (start: nat, end: nat, slot: nat, slotMax: nat)
      ensures this.start == start && this.end == end && this.slot == slot && this.slotMax == slotMax
    {
      this.start, this.end, this.slot, this.slotMax := start, end, slot, slotMax;
    }

    /** The largest block that fits at the front; at most 4096 bytes are never made a block. */
    method Next() returns (r: Result<Option<(nat, Block)>>)
      modifies this
      ensures old(start) + 4096 >= end ==> r == Ok(None) && start == old(start) && slot == old(slot)
      ensures old(start) + 4096 < end && slotMax < old(slot) ==> r == Halt
      ensures old(start) + 4096 < end && old(slot) <= slotMax ==>
                && r.Ok? && r.value.Some?
                && r.value.value.0 == old(slot) && slot == old(slot) + 1
                && var b := r.value.value.1;
                   b.base == old(start) && b.End() == start <= end && end - start < b.Size()
    {
      if start + 4096 >= end {
        return Ok(None);
      }
      if slotMax < slot {
        return Halt;
      }
      var b := Block(start, Ilog2(end - start));
      start := start + b.Size();
      r := Ok(Some((slot, b)));
      slot := slot + 1;
    }
  }

  lemma {:induction false} CoversAppend(blocks: seq<Block>, b: Block, start: nat)
    requires Covers(blocks, start, b.base)
    ensures Covers(blocks + [b], start, b.End())
  {
    if blocks == [] {
      assert (blocks + [b])[1..] == [];
    } else {
      assert (blocks + [b])[1..] == blocks[1..] + [b];
      CoversAppend(blocks[1..], b, blocks[0].End());
    }
  }

  /** Strictly decreasing exponents from `top` down to 12 leave room for few blocks. */
  lemma {:induction false} FewBlocks(blocks: seq<Block>, top: nat)
    requires Decreasing(blocks) && forall i :: 0 <= i < |blocks| ==> 12 <= blocks[i].bits < top
    ensures top >= 12 ==> |blocks| <= top - 12
    ensures top < 12 ==> blocks == []
    decreases top
  {
    if blocks != [] {
      FewBlocks(blocks[1..], blocks[0].bits);
    }
  }

  /** The information about one block that the first program receives. */
  datatype UntypedInfo = UntypedInfo(size: nat, idx: nat)

  /** Turn the rest of memory into blocks, one root slot and one table entry each: the blocks
      and a tail of at most 4096 bytes are exactly the rest of memory, the sizes are strictly
      decreasing powers of two from 4096 up, the slots are consecutive, and for less than 2^44
      bytes the 32 entries of the table are enough. */
  method FillUntyped(start: nat, end: nat, firstSlot: nat, slotMax: nat)
    returns (ok: bool, blocks: seq<Block>, infos: seq<UntypedInfo>, tail: nat)
    requires start <= end
    ensures start <= tail <= end
    ensures Covers(blocks, start, tail)
    ensures Decreasing(blocks) && forall i :: 0 <= i < |blocks| ==> blocks[i].bits >= 12
    ensures |infos| == |blocks|
    ensures forall i :: 0 <= i < |blocks| ==> infos[i] == UntypedInfo(blocks[i].Size(), firstSlot + i)
    ensures ok ==> end - tail <= 4096
    ensures !ok ==> |blocks| == 32 || firstSlot + |blocks| > slotMax
    ensures end - start < Pow2(44) ==> |blocks| <= 32 && (!ok ==> firstSlot + |blocks| > slotMax)
  {
    var g := new UntypedGenerator(start, end, firstSlot, slotMax);
    blocks, infos := [], [];
    while true
      invariant fresh(g) && g.end == end && g.slotMax == slotMax && g.slot == firstSlot + |blocks|
      invariant Cut(blocks, start, g.start, end)
      invariant |infos| == |blocks| <= 32
      invariant forall i :: 0 <= i < |blocks| ==> infos[i] == UntypedInfo(blocks[i].Size(), firstSlot + i)
      decreases end - g.start
    {
      tail := g.start;
      var n := g.Next();
      if n.Halt? || n.value.None? {
        FewCut(blocks, start, tail, end);
        return n.Ok?, blocks, infos, tail;
      }
      var (slot, b) := n.value.value;
      CutStep(blocks, b, start, tail, end);
      if |blocks| >= 32 {
        return false, blocks, infos, tail;
      }
      blocks, infos := blocks + [b], infos + [UntypedInfo(b.Size(), slot)];
    }
  }

  /** The part [start, cur) of [start, end) has been cut, always taking the largest power of two. */
  ghost predicate Cut(blocks: seq<Block>, start: nat, cur: nat, end: nat)
  {
    && start <= cur <= end
    && Covers(blocks, start, cur)
    && Decreasing(blocks)
    && (forall i :: 0 <= i < |blocks| ==>
          12 <= blocks[i].bits && end - cur < blocks[i].Size() && blocks[i].Size() <= end - start)
  }

  lemma {:induction false} CutStep(blocks: seq<Block>, b: Block, start: nat, cur: nat, end: nat)
    requires Cut(blocks, start, cur, end) && cur + 4096 < end
    requires b.base == cur && b.End() <= end && end - b.End() < b.Size()
    ensures Cut(blocks + [b], start, b.End(), end)
    ensures end - start < Pow2(44) ==> |blocks| < 32
  {
    AtLeastAPage(b.bits, end - cur);
    forall i | 0 <= i < |blocks|
      ensures blocks[i].bits > b.bits
    {
      SmallerExponent(b.bits, blocks[i].bits, end - cur);
    }
    CoversAppend(blocks, b, start);
    FewCut(blocks + [b], start, b.End(), end);
  }

  lemma {:induction false} FewCut(blocks: seq<Block>, start: nat, cur: nat, end: nat)
    requires Cut(blocks, start, cur, end)
    ensures end - start < Pow2(44) ==> |blocks| <= 32
  {
    if end - start < Pow2(44) {
      forall i | 0 <= i < |blocks|
        ensures blocks[i].bits < 44
      {
        SmallerExponent(blocks[i].bits, 44, end - start);
      }
      FewBlocks(blocks, 44);
    }
  }

  lemma {:induction false} AtLeastAPage(bits: nat, n: nat)
    requires 4096 < n < 2 * Pow2(bits)
    ensures bits >= 12
  {
    Pow2Small();
    assert Pow2(12) == 2 * Pow2(11);
    if bits < 12 {
      Pow2Monotone(bits, 11);
    }
  }

  lemma {:induction false} SmallerExponent(small: nat, big: nat, n: nat)
    requires Pow2(small) <= n < Pow2(big)
    ensures small < big
  {
    if big <= small {
      Pow2Monotone(big, small);
    }
  }
}
