/**
 The user's side of capability space.  A program that asks for a new capability computes,
 without asking the kernel, the address at which it will find it: the address of the CNode
 shifted up by its radix, plus the slot index.  That address designates exactly the slot the
 kernel has filled, in any graph of CNodes, except after minting: there the library gives the
 kernel the whole address where it expects one from the destination CNode on.
 */
module Handles {
  import opened Kinds
  import opened Bits
  import opened CSpace
  import opened Retyping
  import opened Syscall

  /** Two 32-bit values in one argument register. */
  function Pack(hi: nat, lo: nat): (x: nat) { hi * 0x1_0000_0000 + lo }

  lemma {:induction false} PackIs(hi: nat, lo: nat)
    requires hi < 0x1_0000_0000 && lo < 0x1_0000_0000
    ensures Hi(Pack(hi, lo)) == hi && Lo(Pack(hi, lo)) == lo && Lo(Hi(Pack(hi, lo))) == hi
    ensures Or(Shl(hi, 32), lo) == Pack(hi, lo)
  {
    DivModUnique(Pack(hi, lo), 0x1_0000_0000, hi, lo);
    SmallMod(hi, 0x1_0000_0000);
    Pow2Of32();
    ShlIs(hi, 32, 0x1_0000_0000);
    OrField(hi, 32, lo, 0x1_0000_0000);
  }

  /** The arguments of a request for one object in slot `index` of the CNode at (ptr, depth). */
  function RetypeArgs(ptr: nat, depth: nat, index: nat, userSize: nat, kind: CapType): (a: Args)
  {
    Args(ptr, Pack(index, depth), Pack(userSize, 1), TypeCode(kind))
  }

  /** The arguments of a request to copy (src, srcDepth) into slot `index` of a CNode. */
  function CopyArgs(src: nat, srcDepth: nat, index: nat, radix: nat): (a: Args)
  {
    Args(src, Pack(srcDepth, radix), index, 0)
  }

  /** Occupied slots stay occupied, and those that lead on lead to the same CNodes. */
  ghost predicate SameWays(nodes: CNodes, nodes': CNodes)
  {
    forall q :: IsFull(nodes, q) ==>
      && IsFull(nodes', q) && SlotAt(nodes', q).cap.ctype == SlotAt(nodes, q).cap.ctype
      && (SlotAt(nodes, q).cap.ctype.CNode? ==> SlotAt(nodes', q) == SlotAt(nodes, q))
  }

  /** Then what could be found is still found. */
  lemma {:induction false} StillResolves(nodes: CNodes, nodes': CNodes, c: Cap, bits: seq<bool>)
    requires Wf(nodes) && Wf(nodes') && c.ctype.CNode? && Sound(nodes, c) && Sound(nodes', c) && SameWays(nodes, nodes')
    requires Resolve(nodes, c, bits).Ok? && IsFull(nodes, Resolve(nodes, c, bits).value)
    ensures Resolve(nodes', c, bits) == Resolve(nodes, c, bits)
    decreases |bits|, if c.Radix() == 0 then 1 else 0, Reach(nodes, c.addr)
  {
    var k := c.Radix();
    var i := Value(bits[..k]);
    assert IsFull(nodes, Place(c.addr, i));
    var next := nodes[c.addr][i].cap;
    if bits[k..] != [] && next.ctype.CNode? {
      assert SlotAt(nodes', Place(c.addr, i)) == Full(next);
      StepEnds(nodes, c, next);
      StillResolves(nodes, nodes', next, bits[k..]);
    }
  }

  /** The depths of addresses that fit a word and that the kernel's first shift can take. */
  predicate Within(depth: nat, root: Cap) { depth <= 64 && depth < root.Radix() + 64 }

  /** In slots that have changed only so, the composed address leads to slot i. */
  lemma {:induction false} HandleLeadsThere(nodes: CNodes, nodes': CNodes, root: Cap, p: nat, d: nat, i: nat)
    requires Wf(nodes) && Wf(nodes') && root.ctype.CNode? && Sound(nodes, root) && Sound(nodes', root) && SameWays(nodes, nodes')
    requires FindTyped(nodes, root, p, d, CNode).Ok?
    requires var c := SlotAt(nodes, FindTyped(nodes, root, p, d, CNode).value).cap; 0 < c.Radix() && i < Pow2(c.Radix()) && Within(d + c.Radix(), root)
    ensures var c := SlotAt(nodes, FindTyped(nodes, root, p, d, CNode).value).cap;
            var (p', d') := SlotAddress(p, d, c.Radix(), i);
            Find(nodes', root, p', d') == Ok(Place(c.addr, i))
  {
    StillResolves(nodes, nodes', root, PathBits(p, d));
    AddressComposition(nodes', root, p, d, i);
  }

  lemma {:induction false} RetypeSameWays(nodes: CNodes, slot: Place, m: Making)
    requires IsFull(nodes, slot) && SlotAt(nodes, slot).cap.ctype.Untyped? && m.node in nodes
    requires Writable(nodes[m.node], m.num, m.index).Ok? && (m.kind.CNode? ==> m.userSize < 59)
    ensures SameWays(nodes, Retyped(nodes, slot, m))
  {
    forall q | IsFull(nodes, q)
      ensures IsFull(Retyped(nodes, slot, m), q) && SlotAt(Retyped(nodes, slot, m), q).cap.ctype == SlotAt(nodes, q).cap.ctype
      ensures SlotAt(nodes, q).cap.ctype.CNode? ==> SlotAt(Retyped(nodes, slot, m), q) == SlotAt(nodes, q)
    {
      RetypedSlot(nodes, slot, m, q);
    }
  }

  /** A request for one object through the untyped capability in `slot`: if the kernel grants it, the
      new capability is in slot i of the CNode at (p, d), and the composed handle finds it there. */
  lemma {:induction false} RetypeHandle(nodes: CNodes, root: Cap, slot: Place, p: nat, d: nat, i: nat, userSize: nat, kind: CapType, tcbSize: nat)
    requires CapsOk(nodes) && root.ctype.CNode? && Sound(nodes, root) && tcbSize % 8 == 0
    requires IsFull(nodes, slot) && SlotAt(nodes, slot).cap.ctype.Untyped? && UntypedOk(SlotAt(nodes, slot).cap)
    requires FindTyped(nodes, root, p, d, CNode).Ok? && i < 0x1_0000_0000 && d < 0x1_0000_0000 && userSize < 0x1_0000_0000
    requires Within(d + SlotAt(nodes, FindTyped(nodes, root, p, d, CNode).value).cap.Radix(), root)
    requires MakePlan(nodes, root, SlotAt(nodes, slot).cap, RetypeArgs(p, d, i, userSize, kind), tcbSize).Ok?
    requires Tame(nodes, root, slot, UntypedRetype, RetypeArgs(p, d, i, userSize, kind), tcbSize)
    ensures var m := MakePlan(nodes, root, SlotAt(nodes, slot).cap, RetypeArgs(p, d, i, userSize, kind), tcbSize).value;
            var nodes' := Retyped(nodes, slot, m);
            var c := SlotAt(nodes, FindTyped(nodes, root, p, d, CNode).value).cap;
            var (p', d') := SlotAddress(p, d, c.Radix(), i);
            && CapsOk(nodes') && Sound(nodes', root)
            && Find(nodes', root, p', d') == Ok(Place(c.addr, i))
            && SlotAt(nodes', Place(c.addr, i)) == Full(Cap(kind, m.layout.first, NewWord(kind, userSize)))
  {
    var args := RetypeArgs(p, d, i, userSize, kind);
    RequestDecoded(nodes, root, slot, p, d, i, userSize, kind, tcbSize);
    var m := MakePlan(nodes, root, SlotAt(nodes, slot).cap, args, tcbSize).value;
    RetypeTame(nodes, root, slot, UntypedRetype, args, tcbSize);
    RetypeSameWays(nodes, slot, m);
    HandleLeadsThere(nodes, Retyped(nodes, slot, m), root, p, d, i);
    RetypedSlot(nodes, slot, m, Place(m.node, m.index));
  }

  /** The kernel decodes the request as it was meant. */
  lemma {:induction false} RequestDecoded(nodes: CNodes, root: Cap, slot: Place, p: nat, d: nat, i: nat, userSize: nat, kind: CapType, tcbSize: nat)
    requires CapsOk(nodes) && root.ctype.CNode? && Sound(nodes, root) && tcbSize % 8 == 0
    requires IsFull(nodes, slot) && SlotAt(nodes, slot).cap.ctype.Untyped? && UntypedOk(SlotAt(nodes, slot).cap)
    requires FindTyped(nodes, root, p, d, CNode).Ok? && i < 0x1_0000_0000 && d < 0x1_0000_0000 && userSize < 0x1_0000_0000
    requires MakePlan(nodes, root, SlotAt(nodes, slot).cap, RetypeArgs(p, d, i, userSize, kind), tcbSize).Ok?
    ensures var m := MakePlan(nodes, root, SlotAt(nodes, slot).cap, RetypeArgs(p, d, i, userSize, kind), tcbSize).value;
            var c := SlotAt(nodes, FindTyped(nodes, root, p, d, CNode).value).cap;
            && m == Making(kind, c.addr, i, 1, userSize, m.layout) && Sound(nodes, c) && 0 < c.Radix() && i < Pow2(c.Radix())
            && NewSlot(m, 0) == Full(Cap(kind, m.layout.first, NewWord(kind, userSize)))
  {
    PackIs(i, d);
    PackIs(userSize, 1);
    TypeRoundTrip(kind);
    assert Sound(nodes, SlotAt(nodes, FindTyped(nodes, root, p, d, CNode).value).cap);
  }

  lemma {:induction false} CopySameWays(nodes: CNodes, inv: Label, c: Copying)
    requires HasSlot(nodes, c.src) && HasSlot(nodes, c.dest) && SlotAt(nodes, c.dest).Empty? && !inv.CNodeMove?
    ensures SameWays(nodes, Copied(nodes, inv, c)) && SlotAt(Copied(nodes, inv, c), c.dest) == Full(c.cap)
  {
  }

  /** In a CNode of more than one slot nothing closes a circle of CNodes of one slot. */
  lemma {:induction false} RoomIsHarmless(nodes: CNodes, c: Cap, i: nat, s: Slot)
    requires c.ctype.CNode? && Sound(nodes, c) && c.Radix() > 0
    ensures Harmless(nodes, Place(c.addr, i), s)
  {
    Pow2Monotone(1, c.Radix());
  }

  /** The same for copying a capability into slot i of the CNode at (p, d), if that has more than one slot
      (`CompositionNeedsRadix` says what a handle finds if it has not). */
  lemma {:induction false} CopyHandle(nodes: CNodes, root: Cap, p: nat, d: nat, i: nat, src: nat, srcDepth: nat)
    requires CapsOk(nodes) && root.ctype.CNode? && Sound(nodes, root) && srcDepth < 0x1_0000_0000
    requires FindTyped(nodes, root, p, d, CNode).Ok?
    requires var c := SlotAt(nodes, FindTyped(nodes, root, p, d, CNode).value).cap;
             && 0 < c.Radix() && i < Pow2(c.Radix()) && Within(d + c.Radix(), root) && Sound(nodes, c)
             && CopyPlan(nodes, root, c, CNodeCopy, CopyArgs(src, srcDepth, i, c.Radix())).Ok?
    ensures var c := SlotAt(nodes, FindTyped(nodes, root, p, d, CNode).value).cap;
            var copy := CopyPlan(nodes, root, c, CNodeCopy, CopyArgs(src, srcDepth, i, c.Radix())).value;
            var nodes' := Copied(nodes, CNodeCopy, copy);
            var (p', d') := SlotAddress(p, d, c.Radix(), i);
            && CapsOk(nodes') && Sound(nodes', root)
            && FindFull(nodes, root, src, srcDepth) == Ok(copy.src)
            && Find(nodes', root, p', d') == Ok(Place(c.addr, i)) && SlotAt(nodes', Place(c.addr, i)) == Full(copy.cap)
  {
    var c := SlotAt(nodes, FindTyped(nodes, root, p, d, CNode).value).cap;
    var args := CopyArgs(src, srcDepth, i, c.Radix());
    var copy := CopyPlan(nodes, root, c, CNodeCopy, args).value;
    PackIs(srcDepth, c.Radix());
    OwnSlot(nodes, c, i);
    RoomIsHarmless(nodes, c, i, Full(copy.cap));
    CopyKeepsCaps(nodes, root, c, CNodeCopy, args);
    CopySameWays(nodes, CNodeCopy, copy);
    HandleLeadsThere(nodes, Copied(nodes, CNodeCopy, copy), root, p, d, i);
  }

  /** The arguments of a request to mint a copy of (src, srcDepth): the library passes the whole address
      (p', d') of the new slot. */
  function MintArgs(src: nat, srcDepth: nat, p': nat, d': nat, val: nat): (a: Args)
  {
    Args(src, Pack(srcDepth, d'), p', val)
  }

  /** Minting a copy of what is not a CNode into slot i of the CNode at (p, d): the handle finds slot i as
      always, but the kernel has filled the slot that the whole address leads to from that CNode.  So the
      handle designates the new capability exactly if that is slot i too. */
  lemma {:induction false} MintHandle(nodes: CNodes, root: Cap, p: nat, d: nat, i: nat, src: nat, srcDepth: nat, val: nat)
    requires CapsOk(nodes) && root.ctype.CNode? && Sound(nodes, root) && srcDepth < 0x1_0000_0000
    requires FindTyped(nodes, root, p, d, CNode).Ok?
    requires var c := SlotAt(nodes, FindTyped(nodes, root, p, d, CNode).value).cap;
             && 0 < c.Radix() && i < Pow2(c.Radix()) && Within(d + c.Radix(), root) && Sound(nodes, c)
             && var (p', d') := SlotAddress(p, d, c.Radix(), i);
             && CopyPlan(nodes, root, c, CNodeMint, MintArgs(src, srcDepth, p', d', val)).Ok?
             && !CopyPlan(nodes, root, c, CNodeMint, MintArgs(src, srcDepth, p', d', val)).value.cap.ctype.CNode?
    ensures var c := SlotAt(nodes, FindTyped(nodes, root, p, d, CNode).value).cap;
            var (p', d') := SlotAddress(p, d, c.Radix(), i);
            var mint := CopyPlan(nodes, root, c, CNodeMint, MintArgs(src, srcDepth, p', d', val)).value;
            var nodes' := Copied(nodes, CNodeMint, mint);
            && CapsOk(nodes') && Sound(nodes', root) && SlotAt(nodes', mint.dest) == Full(mint.cap)
            && Find(nodes', root, p', d') == Ok(Place(c.addr, i))
            && (Find(nodes', root, p', d') == Ok(mint.dest) <==> Find(nodes, c, p', d') == Ok(Place(c.addr, i)))
  {
    var c := SlotAt(nodes, FindTyped(nodes, root, p, d, CNode).value).cap;
    var (p', d') := SlotAddress(p, d, c.Radix(), i);
    var args := MintArgs(src, srcDepth, p', d', val);
    var mint := CopyPlan(nodes, root, c, CNodeMint, args).value;
    PackIs(srcDepth, d');
    CopyKeepsCaps(nodes, root, c, CNodeMint, args);
    CopySameWays(nodes, CNodeMint, mint);
    HandleLeadsThere(nodes, Copied(nodes, CNodeMint, mint), root, p, d, i);
  }

  /** So it does in the root CNode, if it holds a capability to itself, as the first program's does. */
  lemma {:induction false} MintIntoRoot(nodes: CNodes, root: Cap, p: nat, d: nat, i: nat)
    requires Wf(nodes) && root.ctype.CNode? && Sound(nodes, root) && FindTyped(nodes, root, p, d, CNode).Ok?
    requires var c := SlotAt(nodes, FindTyped(nodes, root, p, d, CNode).value).cap;
             c.addr == root.addr && c.Radix() == root.Radix() && 0 < c.Radix() && i < Pow2(c.Radix()) && Within(d + c.Radix(), root) && Sound(nodes, c)
    ensures var c := SlotAt(nodes, FindTyped(nodes, root, p, d, CNode).value).cap;
            var (p', d') := SlotAddress(p, d, c.Radix(), i);
            Find(nodes, c, p', d') == Ok(Place(c.addr, i))
  {
    var c := SlotAt(nodes, FindTyped(nodes, root, p, d, CNode).value).cap;
    var (p', d') := SlotAddress(p, d, c.Radix(), i);
    AddressComposition(nodes, root, p, d, i);
    assert Resolve(nodes, c, PathBits(p', d')) == Resolve(nodes, root, PathBits(p', d'));
  }

  /** Two CNodes of two slots: the root holds the second CNode and an endpoint, the second is empty. */
  function TwoLevels(a: nat, b: nat, ep: nat): (nodes: CNodes)
  {
    map[a := [Full(Cap(CNode, b, 1)), Full(Cap(EndPoint, ep, 0))], b := [Empty, Empty]]
  }

  lemma {:induction false} TwoLevelsOk(a: nat, b: nat, ep: nat)
    requires a != b
    ensures var nodes := TwoLevels(a, b, ep); CapsOk(nodes) && Sound(nodes, Cap(CNode, a, 1)) && Sound(nodes, Cap(CNode, b, 1))
  {
    Pow2Small();
    assert forall x: nat :: ZeroNext(TwoLevels(a, b, ep), x).None?;
    NoStepsGrounded(TwoLevels(a, b, ep));
  }

  /** The kernel grants the request, and the handle (p', d') finds another slot than the one it filled, which
      is empty. */
  ghost predicate Misses(nodes: CNodes, root: Cap, into: Cap, args: Args, p': nat, d': nat)
  {
    && Wf(nodes) && root.ctype.CNode? && Sound(nodes, root) && into.ctype.CNode? && Sound(nodes, into)
    && CopyPlan(nodes, root, into, CNodeMint, args).Ok?
    && var mint := CopyPlan(nodes, root, into, CNodeMint, args).value;
    && var nodes' := Copied(nodes, CNodeMint, mint);
    && Wf(nodes') && Sound(nodes', root) && Find(nodes', root, p', d').Ok?
    && Find(nodes', root, p', d').value != mint.dest && SlotAt(nodes', Find(nodes', root, p', d').value).Empty?
  }

  /** Whenever the whole address leads elsewhere from the destination CNode, and slot i is empty, the handle
      finds an empty slot. */
  lemma {:induction false} MintElsewhere(nodes: CNodes, root: Cap, p: nat, d: nat, i: nat, src: nat, srcDepth: nat, val: nat, c: Cap, p': nat, d': nat)
    requires CapsOk(nodes) && root.ctype.CNode? && Sound(nodes, root) && srcDepth < 0x1_0000_0000 && c.ctype.CNode? && Sound(nodes, c)
    requires FindTyped(nodes, root, p, d, CNode).Ok? && SlotAt(nodes, FindTyped(nodes, root, p, d, CNode).value) == Full(c)
    requires 0 < c.Radix() && i < Pow2(c.Radix()) && Within(d + c.Radix(), root) && nodes[c.addr][i].Empty?
    requires SlotAddress(p, d, c.Radix(), i) == (p', d')
    requires CopyPlan(nodes, root, c, CNodeMint, MintArgs(src, srcDepth, p', d', val)).Ok?
    requires !CopyPlan(nodes, root, c, CNodeMint, MintArgs(src, srcDepth, p', d', val)).value.cap.ctype.CNode?
    requires Find(nodes, c, p', d') != Ok(Place(c.addr, i))
    ensures Misses(nodes, root, c, MintArgs(src, srcDepth, p', d', val), p', d')
  {
    MintHandle(nodes, root, p, d, i, src, srcDepth, val);
  }

  /** What the kernel finds in the two CNodes. */
  lemma {:induction false} TwoLevelsFinds(a: nat, b: nat, ep: nat, zero: nat, one: nat, two: nat)
    requires a != b && zero == 0 && one == 1 && two == 2
    ensures var nodes, root := TwoLevels(a, b, ep), Cap(CNode, a, 1);
            && CapsOk(nodes) && Sound(nodes, root) && Sound(nodes, Cap(CNode, b, 1))
            && Find(nodes, root, zero, one) == Ok(Place(a, 0)) && Find(nodes, root, one, one) == Ok(Place(a, 1))
            && Find(nodes, Cap(CNode, b, 1), one, two) == Ok(Place(b, 0))
  {
    var nodes, root, c := TwoLevels(a, b, ep), Cap(CNode, a, 1), Cap(CNode, b, 1);
    TwoLevelsOk(a, b, ep);
    Pow2Small();
    OwnSlot(nodes, root, 0);
    OwnSlot(nodes, root, 1);
    assert PathBits(1, 2)[..1] == [false] && Value([false]) == 0;
  }

  lemma {:induction false} TwoLevelsMint(nodes: CNodes, a: nat, b: nat, ep: nat, root: Cap, c: Cap, one: nat, two: nat, badge: nat)
    requires CapsOk(nodes) && root.ctype.CNode? && Sound(nodes, root) && c.ctype.CNode? && Sound(nodes, c) && one == 1 && two == 2
    requires Find(nodes, root, one, one) == Ok(Place(a, 1)) && SlotAt(nodes, Place(a, 1)) == Full(Cap(EndPoint, ep, 0))
    requires Find(nodes, c, one, two) == Ok(Place(b, 0)) && SlotAt(nodes, Place(b, 0)).Empty?
    ensures CopyPlan(nodes, root, c, CNodeMint, MintArgs(one, one, one, two, badge)) == Ok(Copying(Place(a, 1), Place(b, 0), Cap(EndPoint, ep, badge)))
  {
    PackIs(one, two);
  }

  lemma {:induction false} SlotOneAddress(c: Cap, zero: nat, one: nat, two: nat)
    requires zero == 0 && one == 1 && two == 2 && c.word == one
    ensures c.Radix() == one && one < Pow2(c.Radix()) && SlotAddress(zero, one, c.Radix(), one) == (one, two)
  {
    assert c.Radix() == one;
    Pow2Small();
    ShlIs(0, 1, 2);
  }

  /** What is needed for minting into slot 1 of c to miss: the whole address leads to its slot 0. */
  ghost predicate Astray(nodes: CNodes, root: Cap, c: Cap, zero: nat, one: nat, two: nat, badge: nat)
  {
    && CapsOk(nodes) && root.ctype.CNode? && Sound(nodes, root) && c.ctype.CNode? && Sound(nodes, c)
    && Find(nodes, root, zero, one).Ok? && SlotAt(nodes, Find(nodes, root, zero, one).value) == Full(c)
    && CopyPlan(nodes, root, c, CNodeMint, MintArgs(one, one, one, two, badge)).Ok?
    && CopyPlan(nodes, root, c, CNodeMint, MintArgs(one, one, one, two, badge)).value.cap.ctype.EndPoint?
    && one < |nodes[c.addr]| && nodes[c.addr][one].Empty? && Find(nodes, c, one, two) == Ok(Place(c.addr, 0))
  }

  lemma {:induction false} AstrayMisses(nodes: CNodes, root: Cap, c: Cap, zero: nat, one: nat, two: nat, badge: nat)
    requires one == 1 && two == 2 && Astray(nodes, root, c, zero, one, two, badge)
    requires c.Radix() == one && one < Pow2(c.Radix()) && SlotAddress(zero, one, c.Radix(), one) == (one, two)
    ensures Misses(nodes, root, c, MintArgs(one, one, one, two, badge), one, two)
  {
    MintElsewhere(nodes, root, zero, one, one, one, one, badge, c, one, two);
  }

  lemma {:induction false} TwoLevelsAstray(a: nat, b: nat, ep: nat, c: Cap, zero: nat, one: nat, two: nat, badge: nat)
    requires a != b && zero == 0 && one == 1 && two == 2 && c == Cap(CNode, b, one)
    ensures Astray(TwoLevels(a, b, ep), Cap(CNode, a, one), c, zero, one, two, badge)
  {
    var nodes, root := TwoLevels(a, b, ep), Cap(CNode, a, one);
    TwoLevelsFinds(a, b, ep, zero, one, two);
    assert SlotAt(nodes, Place(a, 0)) == Full(c) && SlotAt(nodes, Place(a, 1)) == Full(Cap(EndPoint, ep, 0)) && SlotAt(nodes, Place(b, 0)).Empty?;
    TwoLevelsMint(nodes, a, b, ep, root, c, one, two, badge);
  }

  lemma {:induction false} SlotOneMissed(a: nat, b: nat, ep: nat, zero: nat, one: nat, two: nat, badge: nat)
    requires a != b && zero == 0 && one == 1 && two == 2
    ensures Misses(TwoLevels(a, b, ep), Cap(CNode, a, one), Cap(CNode, b, one), MintArgs(one, one, one, two, badge), one, two)
  {
    TwoLevelsAstray(a, b, ep, Cap(CNode, b, one), zero, one, two, badge);
    SlotOneAddress(Cap(CNode, b, one), zero, one, two);
    AstrayMisses(TwoLevels(a, b, ep), Cap(CNode, a, one), Cap(CNode, b, one), zero, one, two, badge);
  }

  /** The endpoint is minted into slot 1 of the CNode below the root, for which the library composes (1, 2).
      From that CNode it leads to slot 0, which the kernel fills. */
  lemma {:induction false} MintMisses(a: nat, b: nat, ep: nat, badge: nat)
    requires a != b
    ensures Misses(TwoLevels(a, b, ep), Cap(CNode, a, 1), Cap(CNode, b, 1), MintArgs(1, 1, 1, 2, badge), 1, 2)
  {
    SlotOneMissed(a, b, ep, 0, 1, 2, badge);
  }

  /** From a CNode, an index of just its radix leads to its own slot. */
  lemma {:induction false} OwnSlot(nodes: CNodes, c: Cap, i: nat)
    requires Wf(nodes) && c.ctype.CNode? && Sound(nodes, c) && i < Pow2(c.Radix())
    ensures Find(nodes, c, i, c.Radix()) == Ok(Place(c.addr, i))
  {
    var k := c.Radix();
    ValueOfPath(i, k);
    LowSmall(i, k);
    assert PathBits(i, k)[..k] == PathBits(i, k);
  }
}
