/**
 Whole sessions of invocations, together with the memory that they use.  Every CNode and page
 table lies in memory that has been handed out, and every untyped capability stands for the
 unused part of its own block.  So what a retype makes, if it fits its block, lies where no CNode
 is and hangs in no address space: the two conditions that single invocations could only assume.
 Over every such session capabilities stay sound, address spaces stay trees, and the hardware
 answers every access of a user program from the plain map of bindings.
 */
module Sessions {
  import opened Kinds
  import opened Bits
  import opened Packing
  import opened CSpace
  import opened Retyping
  import opened PageTables
  import opened TableEffects
  import opened Syscall
  import AddressSpaces
  import Memory
  import Threads
  import Invocations

  /** Capability space and address spaces, physical memory, and the block of each untyped capability. */
  datatype Joint = Joint(w: World, m: Memory.Mem, blockOf: map<Place, nat>)

  ghost predicate IsUntyped(nodes: CNodes, p: Place) { IsFull(nodes, p) && SlotAt(nodes, p).cap.ctype.Untyped? }

  /** The capability describes the unused part of the block. */
  predicate Describes(c: Cap, u: Memory.Used)
  {
    c.addr == u.block.base && UntypedBits(c.word) == u.block.bits && UntypedFree(c.word) == u.free
  }

  ghost predicate BlocksHeld(nodes: CNodes, blocks: seq<Memory.Used>, blockOf: map<Place, nat>)
  {
    && (forall p :: IsUntyped(nodes, p) ==> p in blockOf && blockOf[p] < |blocks| && Describes(SlotAt(nodes, p).cap, blocks[blockOf[p]]))
    && (forall p, q :: p in blockOf && q in blockOf && blockOf[p] == blockOf[q] ==> p == q)
  }

  /** CNodes and tables lie in memory that has been handed out. */
  ghost predicate AllGiven(w: World, given: seq<Memory.Range>)
  {
    && (forall n :: n in w.nodes ==> Memory.Given(given, n))
    && (forall t :: t in w.tables ==> Memory.Given(given, t))
    && (forall t :: t in w.level ==> Memory.Given(given, t))
  }

  /** Page and table capabilities designate whole pages. */
  ghost predicate PagesAligned(nodes: CNodes)
  {
    forall p :: IsFull(nodes, p) && (SlotAt(nodes, p).cap.ctype.Page? || SlotAt(nodes, p).cap.ctype.PageTable?) ==>
      SlotAt(nodes, p).cap.addr % 4096 == 0
  }

  ghost predicate Owned(j: Joint)
  {
    && WorldOk(j.w) && Memory.Inv(j.m) && AllGiven(j.w, j.m.given) && BlocksHeld(j.w.nodes, j.m.blocks, j.blockOf)
    && PagesAligned(j.w.nodes) && EntriesAligned(j.w.tables)
  }

  // ---------------------------------------------------------------- what retyping makes is new

  /** The step of memory that a retype is. */
  function OpOf(b: nat, k: Making): (op: Memory.Op) { Memory.Retype(b, k.kind, k.userSize, k.num) }

  lemma {:induction false} NewRange(m: Memory.Mem, b: nat, k: Making, i: nat)
    requires Memory.Inv(m) && Memory.Enabled(m, OpOf(b, k)) && i < k.num && k.layout.size > 0
    requires k.layout == Memory.PlanOf(m.blocks[b], m.tcbSize, k.kind, k.userSize, k.num).value
    ensures !Memory.Given(m.given, k.layout.ObjectAt(i)) && Memory.Given(Memory.Step(m, OpOf(b, k)).given, k.layout.ObjectAt(i))
  {
    var gs := Memory.HandsOut(m, OpOf(b, k));
    Memory.HandsOutOk(m, OpOf(b, k));
    assert gs[i] == Memory.Range(k.layout.ObjectAt(i), k.layout.size);
    assert gs[i].Has(k.layout.ObjectAt(i));
    forall n | 0 <= n < |m.given|
      ensures !m.given[n].Has(k.layout.ObjectAt(i))
    {
      assert Memory.Apart(m.given[n], gs[i]);
    }
    var given := m.given + gs;
    assert given[|m.given| + i] == gs[i];
  }

  /** What the retype of the capability in the slot of c is to make. */
  ghost function Made(w: World, c: Call): (k: Making)
    requires CallOk(w, c) && IsUntyped(w.nodes, c.slot) && UntypedOk(SlotAt(w.nodes, c.slot).cap)
    requires MakePlan(w.nodes, c.root, SlotAt(w.nodes, c.slot).cap, c.args, c.tcbSize).Ok?
  {
    MakePlan(w.nodes, c.root, SlotAt(w.nodes, c.slot).cap, c.args, c.tcbSize).value
  }

  /** A retype that is granted. */
  ghost predicate Retypes(w: World, c: Call)
    requires CallOk(w, c)
  {
    && IsUntyped(w.nodes, c.slot) && UntypedOk(SlotAt(w.nodes, c.slot).cap)
    && MakePlan(w.nodes, c.root, SlotAt(w.nodes, c.slot).cap, c.args, c.tcbSize).Ok?
  }

  lemma {:induction false} MadeIs(w: World, c: Call)
    requires CallOk(w, c) && Retypes(w, c)
    ensures var u, k := SlotAt(w.nodes, c.slot).cap, Made(w, c);
            && Plan(u.addr, UntypedBits(u.word), UntypedFree(u.word), k.kind, k.userSize, k.num, c.tcbSize) == Ok(k.layout)
            && k.node in w.nodes && Writable(w.nodes[k.node], k.num, k.index).Ok? && !k.kind.Untyped? && (k.kind.CNode? ==> k.userSize < 59)
            && k.num == Lo(c.args.a5)
  {
  }

  /** The objects stay inside their block. */
  ghost predicate MadeFits(w: World, c: Call)
    requires CallOk(w, c) && Retypes(w, c)
  {
    var u, k := SlotAt(w.nodes, c.slot).cap, Made(w, c);
    MadeIs(w, c);
    PhysToKernel(UntypedFree(u.word)) + Alignment(k.kind) - 1 < WORD &&
    Fits(u.addr, UntypedBits(u.word), UntypedFree(u.word), k.kind, k.userSize, k.num, c.tcbSize)
  }

  /** It is a step of memory. */
  lemma {:induction false} RetypeEnabled(j: Joint, c: Call)
    requires Owned(j) && CallOk(j.w, c) && Retypes(j.w, c) && MadeFits(j.w, c) && c.tcbSize == j.m.tcbSize
    ensures c.slot in j.blockOf && Memory.Enabled(j.m, OpOf(j.blockOf[c.slot], Made(j.w, c)))
    ensures var b, k := j.blockOf[c.slot], Made(j.w, c); Memory.PlanOf(j.m.blocks[b], j.m.tcbSize, k.kind, k.userSize, k.num) == Ok(k.layout)
  {
    MadeIs(j.w, c);
    assert IsUntyped(j.w.nodes, c.slot);
  }

  /** CNodes and tables take up memory. */
  lemma {:induction false} SizePositive(addr: nat, bits: nat, free: nat, kind: CapType, userSize: nat, num: nat, tcbSize: nat)
    requires (kind.CNode? || kind.PageTable?) && tcbSize % 8 == 0 && IsPhys(addr) && IsPhys(free)
    requires Plan(addr, bits, free, kind, userSize, num, tcbSize).Ok?
    ensures Plan(addr, bits, free, kind, userSize, num, tcbSize).value.size > 0
  {
  }

  /** What is made lies where no CNode is, and hangs in no address space. */
  lemma {:induction false} MadeIsNew(j: Joint, c: Call)
    requires Owned(j) && CallOk(j.w, c) && Retypes(j.w, c) && MadeFits(j.w, c) && c.tcbSize == j.m.tcbSize
    ensures FreshNodes(j.w.nodes, Made(j.w, c))
    ensures Made(j.w, c).kind.PageTable? ==> OutsideSpaces(j.w.level, Made(j.w, c), Made(j.w, c).num)
  {
    var k := Made(j.w, c);
    RetypeEnabled(j, c);
    MadeIs(j.w, c);
    if k.kind.CNode? || k.kind.PageTable? {
      var u := SlotAt(j.w.nodes, c.slot).cap;
      SizePositive(u.addr, UntypedBits(u.word), UntypedFree(u.word), k.kind, k.userSize, k.num, c.tcbSize);
      forall i | 0 <= i < k.num
        ensures k.layout.ObjectAt(i) !in j.w.nodes && k.layout.ObjectAt(i) !in j.w.level
      {
        NewRange(j.m, j.blockOf[c.slot], k, i);
      }
    }
  }

  // ---------------------------------------------------------------- what stays owned

  lemma {:induction false} MoreIsGiven(w: World, given: seq<Memory.Range>, gs: seq<Memory.Range>)
    requires AllGiven(w, given)
    ensures AllGiven(w, given + gs)
  {
    forall a
      ensures Memory.Given(given, a) ==> Memory.Given(given + gs, a)
    {
      Memory.StillGiven(given, gs, a);
    }
  }

  lemma {:induction false} NewNodesGiven(nodes: CNodes, slot: Place, k: Making, given: seq<Memory.Range>)
    requires IsFull(nodes, slot) && k.node in nodes && (k.kind.CNode? ==> k.userSize < 59)
    requires forall n :: n in nodes ==> Memory.Given(given, n)
    requires k.kind.CNode? ==> forall i :: 0 <= i < k.num ==> Memory.Given(given, k.layout.ObjectAt(i))
    ensures forall n :: n in Retyped(nodes, slot, k) ==> Memory.Given(given, n)
  {
    if k.kind.CNode? {
      NodesAdded(Rewritten(nodes, slot, k), k, k.num, given);
    }
  }

  lemma {:induction false} NodesAdded(nodes: CNodes, k: Making, n: nat, given: seq<Memory.Range>)
    requires k.userSize < 59 && (forall a :: a in nodes ==> Memory.Given(given, a))
    requires forall i :: 0 <= i < n ==> Memory.Given(given, k.layout.ObjectAt(i))
    ensures forall a :: a in WithCNodes(nodes, k, n) ==> Memory.Given(given, a)
  {
    if n > 0 { NodesAdded(nodes, k, n - 1, given); }
  }

  lemma {:induction false} TablesAdded(ts: Tables, k: Making, n: nat, given: seq<Memory.Range>)
    requires Shape(ts) && EntriesAligned(ts) && (forall a :: a in ts ==> Memory.Given(given, a))
    requires forall i :: 0 <= i < n ==> Memory.Given(given, k.layout.ObjectAt(i))
    ensures (forall a :: a in WithTables(ts, k, n) ==> Memory.Given(given, a)) && EntriesAligned(WithTables(ts, k, n))
  {
    if n > 0 { TablesAdded(ts, k, n - 1, given); }
  }

  /** After a retype every untyped capability still describes its own block. */
  lemma {:induction false} RetypeHeld(nodes: CNodes, slot: Place, k: Making, blocks: seq<Memory.Used>, blockOf: map<Place, nat>)
    requires IsUntyped(nodes, slot) && k.node in nodes && Writable(nodes[k.node], k.num, k.index).Ok? && (k.kind.CNode? ==> k.userSize < 59) && !k.kind.Untyped?
    requires BlocksHeld(nodes, blocks, blockOf) && IsPhys(k.layout.end)
    ensures blockOf[slot] < |blocks|
    ensures BlocksHeld(Retyped(nodes, slot, k), blocks[blockOf[slot] := blocks[blockOf[slot]].(free := k.layout.end)], blockOf)
  {
    var nodes' := Retyped(nodes, slot, k);
    var b := blockOf[slot];
    var blocks' := blocks[b := blocks[b].(free := k.layout.end)];
    UntypedRoundTrip(k.layout.end, UntypedBits(SlotAt(nodes, slot).cap.word));
    forall p | IsUntyped(nodes', p)
      ensures p in blockOf && blockOf[p] < |blocks'| && Describes(SlotAt(nodes', p).cap, blocks'[blockOf[p]])
    {
      if HasSlot(nodes, p) {
        RetypedSlot(nodes, slot, k, p);
        assert p != slot ==> IsUntyped(nodes, p);
      } else {
        NewNodesEmpty(nodes, slot, k, p);
      }
    }
  }

  lemma {:induction false} RetypeAligned(nodes: CNodes, slot: Place, k: Making)
    requires IsUntyped(nodes, slot) && k.node in nodes && Writable(nodes[k.node], k.num, k.index).Ok? && (k.kind.CNode? ==> k.userSize < 59)
    requires PagesAligned(nodes) && (k.kind.Page? || k.kind.PageTable? ==> forall i :: 0 <= i < k.num ==> k.layout.ObjectAt(i) % 4096 == 0)
    ensures PagesAligned(Retyped(nodes, slot, k))
  {
    var nodes' := Retyped(nodes, slot, k);
    forall p | IsFull(nodes', p) && (SlotAt(nodes', p).cap.ctype.Page? || SlotAt(nodes', p).cap.ctype.PageTable?)
      ensures SlotAt(nodes', p).cap.addr % 4096 == 0
    {
      if HasSlot(nodes, p) {
        RetypedSlot(nodes, slot, k, p);
      } else {
        NewNodesEmpty(nodes, slot, k, p);
      }
    }
  }

  lemma {:induction false} RetypeStep(j: Joint, c: Call, w': World) returns (j': Joint, op: Memory.Op)
    requires Owned(j) && CallOk(j.w, c) && Retypes(j.w, c) && MadeFits(j.w, c) && c.tcbSize == j.m.tcbSize
    requires Succeeded(j.w, c, w') && WorldOk(w')
    ensures Owned(j') && j'.w == w' && Memory.Enabled(j.m, op) && j'.m == Memory.Step(j.m, op)
  {
    var k, b := Made(j.w, c), j.blockOf[c.slot];
    RetypeEnabled(j, c);
    MadeIs(j.w, c);
    op := OpOf(b, k);
    j' := Joint(w', Memory.Step(j.m, op), j.blockOf);
    Memory.StepKeeps(j.m, op);
    RetypeNodes(j, c, j'.m.given);
    RetypeGiven(j, c, w', j'.m.given);
  }

  /** The slots after a retype. */
  lemma {:induction false} RetypeNodes(j: Joint, c: Call, given: seq<Memory.Range>)
    requires Owned(j) && CallOk(j.w, c) && Retypes(j.w, c) && MadeFits(j.w, c) && c.tcbSize == j.m.tcbSize
    ensures var k := Made(j.w, c);
            && k.node in j.w.nodes && (k.kind.CNode? ==> k.userSize < 59) && c.slot in j.blockOf && j.blockOf[c.slot] < |j.m.blocks|
            && var b := j.blockOf[c.slot];
            && PagesAligned(Retyped(j.w.nodes, c.slot, k))
            && BlocksHeld(Retyped(j.w.nodes, c.slot, k), j.m.blocks[b := j.m.blocks[b].(free := k.layout.end)], j.blockOf)
  {
    var k, u := Made(j.w, c), SlotAt(j.w.nodes, c.slot).cap;
    MadeIs(j.w, c);
    PlanIsTidy(u.addr, UntypedBits(u.word), UntypedFree(u.word), k.kind, k.userSize, k.num, c.tcbSize);
    RetypeHeld(j.w.nodes, c.slot, k, j.m.blocks, j.blockOf);
    MadeAligned(k);
    RetypeAligned(j.w.nodes, c.slot, k);
  }

  lemma {:induction false} MadeAligned(k: Making)
    requires Tidy(Regions(k.kind, k.layout.first, k.layout.stride, k.layout.size, k.num), k.layout.first, k.layout.end)
    ensures k.kind.Page? || k.kind.PageTable? ==> forall i :: 0 <= i < k.num ==> k.layout.ObjectAt(i) % 4096 == 0
  {
    AlignmentIs(k.kind);
    forall i | 0 <= i < k.num
      ensures k.layout.ObjectAt(i) % Alignment(k.kind) == 0
    {
      assert Regions(k.kind, k.layout.first, k.layout.stride, k.layout.size, k.num)[i].base == k.layout.ObjectAt(i);
    }
  }

  /** CNodes and tables after a retype, and what they hold. */
  lemma {:induction false} RetypeGiven(j: Joint, c: Call, w': World, given: seq<Memory.Range>)
    requires Owned(j) && CallOk(j.w, c) && Retypes(j.w, c) && MadeFits(j.w, c) && c.tcbSize == j.m.tcbSize && Succeeded(j.w, c, w')
    requires c.slot in j.blockOf && Memory.Enabled(j.m, OpOf(j.blockOf[c.slot], Made(j.w, c)))
    requires given == Memory.Step(j.m, OpOf(j.blockOf[c.slot], Made(j.w, c))).given
    ensures AllGiven(w', given) && Shape(w'.tables) && EntriesAligned(w'.tables)
  {
    var k, u := Made(j.w, c), SlotAt(j.w.nodes, c.slot).cap;
    RetypeEnabled(j, c);
    MadeIs(j.w, c);
    MoreIsGiven(j.w, j.m.given, Memory.HandsOut(j.m, OpOf(j.blockOf[c.slot], k)));
    if k.kind.CNode? || k.kind.PageTable? {
      SizePositive(u.addr, UntypedBits(u.word), UntypedFree(u.word), k.kind, k.userSize, k.num, c.tcbSize);
      forall i | 0 <= i < k.num
        ensures Memory.Given(given, k.layout.ObjectAt(i))
      {
        NewRange(j.m, j.blockOf[c.slot], k, i);
      }
    }
    NewNodesGiven(j.w.nodes, c.slot, k, given);
    if k.kind.PageTable? {
      TablesAdded(j.w.tables, k, k.num, given);
    }
  }

  lemma {:induction false} CopiedSlot(nodes: CNodes, inv: Label, copy: Copying, p: Place)
    requires IsFull(nodes, copy.src) && HasSlot(nodes, copy.dest) && IsFull(Copied(nodes, inv, copy), p)
    ensures p == copy.dest ==> SlotAt(Copied(nodes, inv, copy), p) == Full(copy.cap)
    ensures p != copy.dest ==> IsFull(nodes, p) && SlotAt(Copied(nodes, inv, copy), p) == SlotAt(nodes, p)
  {
  }

  /** Copying and moving touch no untyped capability, and make no page capability but to the same page. */
  lemma {:induction false} CopyOwned(nodes: CNodes, inv: Label, copy: Copying, blocks: seq<Memory.Used>, blockOf: map<Place, nat>)
    requires IsFull(nodes, copy.src) && HasSlot(nodes, copy.dest) && !copy.cap.ctype.Untyped?
    requires copy.cap.ctype == SlotAt(nodes, copy.src).cap.ctype && copy.cap.addr == SlotAt(nodes, copy.src).cap.addr
    requires BlocksHeld(nodes, blocks, blockOf) && PagesAligned(nodes)
    ensures BlocksHeld(Copied(nodes, inv, copy), blocks, blockOf) && PagesAligned(Copied(nodes, inv, copy))
    ensures Copied(nodes, inv, copy).Keys == nodes.Keys
  {
    var nodes' := Copied(nodes, inv, copy);
    forall p | IsFull(nodes', p)
      ensures IsUntyped(nodes', p) ==> IsUntyped(nodes, p) && SlotAt(nodes', p) == SlotAt(nodes, p)
      ensures SlotAt(nodes', p).cap.ctype.Page? || SlotAt(nodes', p).cap.ctype.PageTable? ==> SlotAt(nodes', p).cap.addr % 4096 == 0
    {
      CopiedSlot(nodes, inv, copy, p);
    }
  }

  lemma {:induction false} WordOwned(nodes: CNodes, nodes': CNodes, slot: Place, blocks: seq<Memory.Used>, blockOf: map<Place, nat>)
    requires WordChanged(nodes, nodes', slot) && (SlotAt(nodes, slot).cap.ctype.Page? || SlotAt(nodes, slot).cap.ctype.PageTable?)
    requires BlocksHeld(nodes, blocks, blockOf) && PagesAligned(nodes)
    ensures BlocksHeld(nodes', blocks, blockOf) && PagesAligned(nodes') && nodes'.Keys == nodes.Keys
  {
    forall p | IsFull(nodes', p)
      ensures IsFull(nodes, p) && SameCap(SlotAt(nodes, p), SlotAt(nodes', p)) && (p != slot ==> SlotAt(nodes', p) == SlotAt(nodes, p))
    {
    }
  }

  lemma {:induction false} StoreAligned(ts: Tables, p: nat, i: nat, e: Pte)
    requires Shape(ts) && EntriesAligned(ts) && p in ts && i < 512 && e.addr % 4096 == 0
    ensures EntriesAligned(Store(ts, p, i, e)) && Store(ts, p, i, e).Keys == ts.Keys
  {
  }

  ghost predicate RootsAligned(kr: seq<Pte>) { |kr| == 512 && forall i :: 0 <= i < 512 ==> kr[i].addr % 4096 == 0 }

  /** The tables after a page has been mapped or unmapped. */
  lemma {:induction false} PageOwned(nodes: CNodes, root: Cap, cap: Cap, inv: Label, args: Args, ts: Tables, ts': Tables)
    requires Wf(nodes) && root.ctype.CNode? && Sound(nodes, root) && Shape(ts) && EntriesAligned(ts) && cap.addr % 4096 == 0
    requires PageEffect(nodes, root, cap, inv, args, ts, ts')
    ensures Shape(ts') && EntriesAligned(ts') && ts'.Keys == ts.Keys
  {
    var ix := PagePath(cap, inv, args);
    StoreAligned(ts, TableAt(ts, TableNamed(nodes, root, args).value, ix, 0).value, ix[0], PageStored(cap, inv, args));
  }

  /** The tables after a table has been mapped or made a root. */
  lemma {:induction false} TableOwned(nodes: CNodes, root: Cap, cap: Cap, inv: Label, args: Args, ts: Tables, lv: map<nat, nat>, kr: seq<Pte>,
                                      ts': Tables, lv': map<nat, nat>)
    requires Wf(nodes) && root.ctype.CNode? && Sound(nodes, root) && Shape(ts) && EntriesAligned(ts) && cap.addr % 4096 == 0 && RootsAligned(kr)
    requires TableEffect(nodes, root, cap, inv, args, ts, lv, kr, ts', lv')
    ensures Shape(ts') && EntriesAligned(ts') && ts'.Keys == ts.Keys && forall t :: t in lv' ==> t in lv || t in ts
  {
    if inv.PageTableMap? {
      var table, ix := TableNamed(nodes, root, args).value, Indices(args.a5);
      var l := AddressSpaces.Reached(ts, table, ix);
      StoreAligned(ts, TableAt(ts, table, ix, l).value, ix[l], TableEntry(cap.addr));
    }
  }

  /** The same CNodes and tables. */
  lemma {:induction false} SameGiven(w: World, w': World, given: seq<Memory.Range>)
    requires AllGiven(w, given) && w'.nodes.Keys == w.nodes.Keys && w'.tables.Keys == w.tables.Keys
    requires forall t :: t in w'.level ==> t in w.level || t in w.tables
    ensures AllGiven(w', given)
  {
    assert forall n :: n in w'.nodes ==> n in w'.nodes.Keys;
    assert forall t :: t in w'.tables ==> t in w'.tables.Keys;
  }

  lemma {:induction false} CopyStep(j: Joint, c: Call, w': World)
    requires Owned(j) && CallOk(j.w, c) && Succeeded(j.w, c, w') && WorldOk(w') && SlotAt(j.w.nodes, c.slot).cap.ctype.CNode?
    ensures Owned(Joint(w', j.m, j.blockOf))
  {
    assert Sound(j.w.nodes, SlotAt(j.w.nodes, c.slot).cap);
    CopyOwned(j.w.nodes, c.inv, CopyPlan(j.w.nodes, c.root, SlotAt(j.w.nodes, c.slot).cap, c.inv, c.args).value, j.m.blocks, j.blockOf);
    SameGiven(j.w, w', j.m.given);
  }

  lemma {:induction false} PageStep(j: Joint, c: Call, w': World)
    requires Owned(j) && CallOk(j.w, c) && Succeeded(j.w, c, w') && WorldOk(w') && SlotAt(j.w.nodes, c.slot).cap.ctype.Page?
    ensures Owned(Joint(w', j.m, j.blockOf))
  {
    OnlyWord(j.w.nodes, w'.nodes, c.slot, SlotAt(w'.nodes, c.slot).cap.word);
    WordOwned(j.w.nodes, w'.nodes, c.slot, j.m.blocks, j.blockOf);
    PageOwned(j.w.nodes, c.root, SlotAt(j.w.nodes, c.slot).cap, c.inv, c.args, j.w.tables, w'.tables);
    SameGiven(j.w, w', j.m.given);
  }

  lemma {:induction false} TableStep(j: Joint, c: Call, w': World)
    requires Owned(j) && CallOk(j.w, c) && Succeeded(j.w, c, w') && WorldOk(w') && SlotAt(j.w.nodes, c.slot).cap.ctype.PageTable?
    requires RootsAligned(c.kr)
    ensures Owned(Joint(w', j.m, j.blockOf))
  {
    OnlyWord(j.w.nodes, w'.nodes, c.slot, SlotAt(w'.nodes, c.slot).cap.word);
    WordOwned(j.w.nodes, w'.nodes, c.slot, j.m.blocks, j.blockOf);
    TableOwned(j.w.nodes, c.root, SlotAt(j.w.nodes, c.slot).cap, c.inv, c.args, j.w.tables, j.w.level, c.kr, w'.tables, w'.level);
    SameGiven(j.w, w', j.m.given);
  }

  /** Invocations of anything but untyped memory. */
  lemma {:induction false} OtherStep(j: Joint, c: Call, w': World)
    requires Owned(j) && CallOk(j.w, c) && Succeeded(j.w, c, w') && WorldOk(w') && RootsAligned(c.kr)
    requires !SlotAt(j.w.nodes, c.slot).cap.ctype.Untyped?
    ensures Owned(Joint(w', j.m, j.blockOf))
  {
    match SlotAt(j.w.nodes, c.slot).cap.ctype
    case CNode => CopyStep(j, c, w');
    case Page => PageStep(j, c, w');
    case PageTable => TableStep(j, c, w');
    case _ =>
  }

  // ---------------------------------------------------------------- sessions

  /** What is asked of callers: retypes fit their blocks, no CNode's radix is minted over, and no circle of
      CNodes of one slot is closed. */
  ghost predicate Polite(w: World, c: Call)
    requires CallOk(w, c)
  {
    var cap := SlotAt(w.nodes, c.slot).cap;
    assert Sound(w.nodes, cap);
    && (Retypes(w, c) ==> MadeFits(w, c))
    && (cap.ctype.CNode? && CopyPlan(w.nodes, c.root, cap, c.inv, c.args).Ok? ==>
          var copy := CopyPlan(w.nodes, c.root, cap, c.inv, c.args).value;
          (c.inv.CNodeMint? ==> !copy.cap.ctype.CNode?) && Harmless(Emptied(w.nodes, c.inv, copy), copy.dest, Full(copy.cap)))
  }

  /** Pages and tables are mapped where they belong, besides. */
  ghost predicate Neat(w: World, c: Call)
    requires CallOk(w, c)
  {
    Polite(w, c) && (SlotAt(w.nodes, c.slot).cap.ctype.Untyped? || IsOrderly(w, c))
  }

  /** With that and ownership, what invocations could only assume holds. */
  lemma {:induction false} PoliteIsTame(j: Joint, c: Call)
    requires Owned(j) && CallOk(j.w, c) && c.tcbSize == j.m.tcbSize && Polite(j.w, c)
    ensures IsTame(j.w, c)
  {
    if SlotAt(j.w.nodes, c.slot).cap.ctype.Untyped? && Retypes(j.w, c) {
      MadeIsNew(j, c);
    }
  }

  lemma {:induction false} NeatIsOrderly(j: Joint, c: Call)
    requires Owned(j) && CallOk(j.w, c) && c.tcbSize == j.m.tcbSize && Neat(j.w, c)
    ensures IsOrderly(j.w, c)
  {
    if SlotAt(j.w.nodes, c.slot).cap.ctype.Untyped? && Retypes(j.w, c) {
      MadeIsNew(j, c);
      MadeIs(j.w, c);
    }
  }

  lemma {:induction false} OneOp(m: Memory.Mem, op: Memory.Op)
    requires Memory.Enabled(m, op)
    ensures Memory.Runs(m, [op]) && Memory.Last(m, [op]) == Memory.Step(m, op)
  {
    assert [op][1..] == [];
  }

  /** One invocation keeps ownership, and is at most one step of memory. */
  lemma {:induction false} OwnedStep(j: Joint, c: Call, r: Result<Threads.Event>, w': World) returns (j': Joint, ops: seq<Memory.Op>)
    requires Owned(j) && CallOk(j.w, c) && c.tcbSize == j.m.tcbSize && RootsAligned(c.kr) && Outcome(j.w, c, r, w') && (r.Ok? ==> Polite(j.w, c))
    ensures Owned(j') && j'.w == w' && Memory.Runs(j.m, ops) && j'.m == Memory.Last(j.m, ops)
  {
    j', ops := j, [];
    if r.Ok? {
      PoliteIsTame(j, c);
      if SlotAt(j.w.nodes, c.slot).cap.ctype.Untyped? {
        assert UntypedOk(SlotAt(j.w.nodes, c.slot).cap);
        var op;
        j', op := RetypeStep(j, c, w');
        OneOp(j.m, op);
        ops := [op];
      } else {
        OtherStep(j, c, w');
        j' := Joint(w', j.m, j.blockOf);
      }
    }
  }

  /** An invocation, its result, and what it led to. */
  datatype Done = Done(call: Call, result: Result<Threads.Event>, after: World)

  /** Invocations one after the other, by any threads: each has one of the outcomes that the kernel gives it,
      and those that are granted are polite. */
  ghost predicate Session(w: World, tcbSize: nat, kr: seq<Pte>, steps: seq<Done>)
    decreases |steps|
  {
    steps == [] ||
    var s := steps[0];
    && CallOk(w, s.call) && s.call.tcbSize == tcbSize && s.call.kr == kr && Outcome(w, s.call, s.result, s.after)
    && (s.result.Ok? ==> Polite(w, s.call))
    && Session(s.after, tcbSize, kr, steps[1..])
  }

  /** Those that are granted are neat, too. */
  ghost predicate NeatSession(w: World, steps: seq<Done>)
    decreases |steps|
  {
    steps == [] || (CallOk(w, steps[0].call) && (steps[0].result.Ok? ==> Neat(w, steps[0].call)) && NeatSession(steps[0].after, steps[1..]))
  }

  function EndOf(w: World, steps: seq<Done>): (w': World) { if steps == [] then w else steps[|steps| - 1].after }

  lemma {:induction false} EndOfRest(w: World, steps: seq<Done>)
    requires steps != []
    ensures EndOf(w, steps) == EndOf(steps[0].after, steps[1..])
  {
  }

  lemma {:induction false} RunsAppend(m: Memory.Mem, ops: seq<Memory.Op>, more: seq<Memory.Op>)
    requires Memory.Runs(m, ops) && Memory.Runs(Memory.Last(m, ops), more)
    ensures Memory.Runs(m, ops + more) && Memory.Last(m, ops + more) == Memory.Last(Memory.Last(m, ops), more)
    decreases |ops|
  {
    if ops == [] {
      assert ops + more == more;
    } else {
      RunsAppend(Memory.Step(m, ops[0]), ops[1..], more);
      assert (ops + more)[0] == ops[0] && (ops + more)[1..] == ops[1..] + more;
    }
  }

  lemma {:induction false} SameThreadSize(m: Memory.Mem, ops: seq<Memory.Op>)
    requires Memory.Runs(m, ops)
    ensures Memory.Last(m, ops).tcbSize == m.tcbSize
    decreases |ops|
  {
    if ops != [] { SameThreadSize(Memory.Step(m, ops[0]), ops[1..]); }
  }

  /** Over every session: capabilities stay sound, and the memory used is what a run of the memory model hands
      out, so that (`Memory.UnusedMemoryIsZero`) all objects ever made are disjoint and were zero. */
  lemma {:induction false} SessionOwned(j: Joint, kr: seq<Pte>, steps: seq<Done>) returns (j': Joint, ops: seq<Memory.Op>)
    requires Owned(j) && RootsAligned(kr) && Session(j.w, j.m.tcbSize, kr, steps)
    ensures Owned(j') && j'.w == EndOf(j.w, steps) && Memory.Runs(j.m, ops) && j'.m == Memory.Last(j.m, ops)
    decreases |steps|
  {
    j', ops := j, [];
    if steps != [] {
      var s := steps[0];
      var j1, ops1 := OwnedStep(j, s.call, s.result, s.after);
      SameThreadSize(j.m, ops1);
      var ops2;
      j', ops2 := SessionOwned(j1, kr, steps[1..]);
      ops := ops1 + ops2;
      RunsAppend(j.m, ops1, ops2);
      EndOfRest(j.w, steps);
    }
  }

  /** Over every neat session address spaces stay trees. */
  lemma {:induction false} SessionSpaces(j: Joint, kr: seq<Pte>, steps: seq<Done>)
    requires Owned(j) && RootsAligned(kr) && Session(j.w, j.m.tcbSize, kr, steps) && NeatSession(j.w, steps) && SpacesOk(j.w, kr)
    ensures SpacesOk(EndOf(j.w, steps), kr)
    decreases |steps|
  {
    if steps != [] {
      var s := steps[0];
      var j1, ops := OwnedStep(j, s.call, s.result, s.after);
      SameThreadSize(j.m, ops);
      if s.result.Ok? {
        NeatIsOrderly(j, s.call);
      }
      SessionSpaces(j1, kr, steps[1..]);
      EndOfRest(j.w, steps);
    }
  }

  /** Over every session the root CNodes of threads stay sound, so that each can be looked up from. */
  lemma {:induction false} SessionConfigs(j: Joint, kr: seq<Pte>, steps: seq<Done>)
    requires Owned(j) && RootsAligned(kr) && Session(j.w, j.m.tcbSize, kr, steps) && Invocations.ConfigsOk(j.w.nodes, j.w.configs)
    ensures Invocations.ConfigsOk(EndOf(j.w, steps).nodes, EndOf(j.w, steps).configs)
    decreases |steps|
  {
    if steps != [] {
      var s := steps[0];
      var j1, ops := OwnedStep(j, s.call, s.result, s.after);
      SameThreadSize(j.m, ops);
      if s.result.Ok? {
        PoliteIsTame(j, s.call);
      }
      Invocations.ConfigsStay(j.w, s.call, s.result, s.after);
      SessionConfigs(j1, kr, steps[1..]);
      EndOfRest(j.w, steps);
    }
  }

  /** The binding of a page, if it has one. */
  ghost function Bound(w: World, root: nat, vaddr: nat): (b: Option<Pte>)
    requires Shape(w.tables)
  {
    var m, key := Bindings(w.tables, w.level), (root, Indices(vaddr));
    if key in m then Some(m[key]) else None
  }

  /** So after every neat session the hardware answers every access of user mode from the plain map: with the
      bound frame, if the flags grant the access, and otherwise with a fault. */
  lemma {:induction false} HardwareFollows(j: Joint, kr: seq<Pte>, steps: seq<Done>, root: nat, vaddr: nat, how: Access, marks: bool)
    requires Owned(j) && RootsAligned(kr) && Session(j.w, j.m.tcbSize, kr, steps) && NeatSession(j.w, steps) && SpacesOk(j.w, kr)
    requires IsRootTable(EndOf(j.w, steps).level, root) && vaddr < 0x8000_0000_0000
    ensures var w := EndOf(j.w, steps);
            Shape(w.tables) && Translate(w.tables, root, vaddr, how, marks) == LeafAnswer(Bound(w, root, vaddr), vaddr % 4096, how, marks)
  {
    var w := EndOf(j.w, steps);
    var j', ops := SessionOwned(j, kr, steps);
    SessionSpaces(j, kr, steps);
    HardwareAgrees(w.tables, w.level, kr, root, vaddr, how, marks);
    BindingAt(w.tables, w.level, (root, Indices(vaddr)));
  }

  // ---------------------------------------------------------------- where sessions start

  /** The root CNode as booting leaves it for the blocks: their capabilities in its first slots. */
  function FirstSlots(blocks: seq<Memory.Used>, radix: nat): (slots: seq<Slot>)
    requires |blocks| <= Pow2(radix)
  {
    seq(Pow2(radix), i requires 0 <= i < Pow2(radix) =>
      if i < |blocks| then Full(Cap(Untyped, blocks[i].block.base, UntypedWord(blocks[i].free, blocks[i].block.bits))) else Empty)
  }

  function FirstWorld(root: nat, blocks: seq<Memory.Used>, radix: nat): (w: World)
    requires |blocks| <= Pow2(radix)
  {
    World(map[root := FirstSlots(blocks, radix)], map[], map[], map[])
  }

  function FirstOwners(root: nat, n: nat): (blockOf: map<Place, nat>)
  {
    map i: nat | i < n :: Place(root, i) := i
  }

  lemma {:induction false} FirstCaps(root: nat, m: Memory.Mem, radix: nat)
    requires Memory.Inv(m) && |m.blocks| <= Pow2(radix) && forall i :: 0 <= i < |m.blocks| ==> m.blocks[i].block.bits < 64
    ensures CapsOk(FirstWorld(root, m.blocks, radix).nodes)
    ensures forall p :: IsFull(FirstWorld(root, m.blocks, radix).nodes, p) ==>
              p.node == root && p.index < |m.blocks| && SlotAt(FirstWorld(root, m.blocks, radix).nodes, p).cap.ctype.Untyped?
              && Describes(SlotAt(FirstWorld(root, m.blocks, radix).nodes, p).cap, m.blocks[p.index])
  {
    var nodes: CNodes := FirstWorld(root, m.blocks, radix).nodes;
    forall i | 0 <= i < |m.blocks|
      ensures var c := nodes[root][i].cap; c.ctype.Untyped? && Describes(c, m.blocks[i]) && UntypedOk(c)
    {
      UntypedRoundTrip(m.blocks[i].free, m.blocks[i].block.bits);
    }
    assert forall x: nat :: ZeroNext(nodes, x).None?;
    NoStepsGrounded(nodes);
  }

  /** With the capabilities that booting makes for its blocks, ownership holds. */
  lemma {:induction false} BootOwned(root: nat, m: Memory.Mem, radix: nat)
    requires Memory.Inv(m) && Memory.Given(m.given, root) && |m.blocks| <= Pow2(radix)
    requires forall i :: 0 <= i < |m.blocks| ==> m.blocks[i].block.bits < 64
    ensures Owned(Joint(FirstWorld(root, m.blocks, radix), m, FirstOwners(root, |m.blocks|)))
  {
    FirstCaps(root, m, radix);
  }

  // ---------------------------------------------------------------- from mapping to access

  /** What user mode finds at an offset of a page that was mapped with the rights asked for: the page, exactly for the
      accesses asked for, if the hardware marks pages itself and writing was not asked for without reading. */
  predicate UsableAt(ts: Tables, root: nat, vaddr: nat, frame: nat, asked: nat, offset: nat, how: Access, marks: bool)
    requires Shape(ts)
  {
    offset < 4096 && vaddr + offset < 0x8000_0000_0000 ==>
      var t := Translate(ts, root, vaddr + offset, how, marks);
      && (t.Hit? <==> marks && Asked(asked, how) && (Asked(asked, Storing) ==> Asked(asked, Loading)))
      && (t.Hit? ==> t.pa == frame + offset)
  }

  ghost predicate Usable(ts: Tables, root: nat, vaddr: nat, frame: nat, asked: nat)
    requires Shape(ts)
  {
    forall offset: nat, how: Access, marks: bool :: UsableAt(ts, root, vaddr, frame, asked, offset, how, marks)
  }

  lemma {:induction false} BoundIsUsable(ts: Tables, lv: map<nat, nat>, kr: seq<Pte>, root: nat, vaddr: nat, c: Cap, args: Args)
    requires Tree(ts, lv, kr) && EntriesAligned(ts) && IsRootTable(lv, root) && vaddr % 4096 == 0
    requires Lookup(ts, root, Indices(vaddr)) == Some(PageStored(c, PageMap, args))
    ensures Usable(ts, root, vaddr, c.addr, args.a6)
  {
    forall offset: nat, how: Access, marks: bool
      ensures UsableAt(ts, root, vaddr, c.addr, args.a6, offset, how, marks)
    {
      BoundAnswers(ts, lv, kr, root, vaddr, c, args, offset, how, marks);
    }
  }

  lemma {:induction false} BoundAnswers(ts: Tables, lv: map<nat, nat>, kr: seq<Pte>, root: nat, vaddr: nat, c: Cap, args: Args,
                                        offset: nat, how: Access, marks: bool)
    requires Tree(ts, lv, kr) && EntriesAligned(ts) && IsRootTable(lv, root) && vaddr % 4096 == 0
    requires Lookup(ts, root, Indices(vaddr)) == Some(PageStored(c, PageMap, args))
    ensures UsableAt(ts, root, vaddr, c.addr, args.a6, offset, how, marks)
  {
    if offset < 4096 && vaddr + offset < 0x8000_0000_0000 {
      SamePage(vaddr, offset);
      HardwareAgrees(ts, lv, kr, root, vaddr + offset, how, marks);
      RightsGranted(c.addr, args.a6, how, marks);
    }
  }

  /** After a page has been mapped in user space, that is what the hardware answers at its address. */
  lemma {:induction false} MappedPageAnswers(j: Joint, c: Call, r: Result<Threads.Event>, w': World)
    requires Owned(j) && Invocations.Ends(j.w, c, r, w') && r.Ok? && SlotAt(j.w.nodes, c.slot).cap.ctype.Page? && c.inv.PageMap?
    requires Invocations.InUserSpace(j.w, c)
    ensures Shape(w'.tables) && Usable(w'.tables, TableNamed(j.w.nodes, c.root, c.args).value, c.args.a5, SlotAt(j.w.nodes, c.slot).cap.addr, c.args.a6)
  {
    var cap, table := SlotAt(j.w.nodes, c.slot).cap, TableNamed(j.w.nodes, c.root, c.args).value;
    PageStays(j, c, r, w');
    Invocations.MapEffect(j.w, c, r, w');
    MappedThere(j.w.tables, j.w.level, c.kr, table, Indices(c.args.a5), PageStored(cap, PageMap, c.args));
    BoundIsUsable(w'.tables, w'.level, c.kr, table, c.args.a5, cap, c.args);
  }

  lemma {:induction false} MappedThere(ts: Tables, lv: map<nat, nat>, kr: seq<Pte>, root: nat, ix: seq<nat>, e: Pte)
    requires Standing(ts, lv, kr) && IsRootTable(lv, root) && UserPath(ix) && TableAt(ts, root, ix, 0).Some? && e.Valid()
    ensures var ts' := AddressSpaces.StoreAt(ts, root, ix, e); Standing(ts', lv, kr) && Lookup(ts', root, ix) == Some(e)
  {
    Invocations.StoredThere(ts, lv, kr, root, ix, e);
    AddressSpaces.StoreInTree(ts, lv, kr, root, ix, e);
  }

  lemma {:induction false} PageStays(j: Joint, c: Call, r: Result<Threads.Event>, w': World)
    requires Owned(j) && CallOk(j.w, c) && Outcome(j.w, c, r, w') && r.Ok? && SlotAt(j.w.nodes, c.slot).cap.ctype.Page?
    ensures Owned(Joint(w', j.m, j.blockOf))
  {
    assert IsTame(j.w, c);
    PageStep(j, c, w');
  }

  lemma {:induction false} SamePage(vaddr: nat, offset: nat)
    requires vaddr % 4096 == 0 && offset < 4096
    ensures Indices(vaddr + offset) == Indices(vaddr) && (vaddr + offset) % 4096 == offset
  {
    DivModUnique(vaddr + offset, 4096, vaddr / 4096, offset);
    SameIndices(vaddr + offset, vaddr);
  }
}
