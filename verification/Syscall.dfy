/**
 System calls on capabilities.  An invocation names a capability, whose type says what is
 done.  What an invocation does to threads is left to the thread machine: the invocation
 yields the event that the machine then handles, and a failure yields the event that only
 writes the error back.
 */
module Syscall {
  import opened Kinds
  import opened Bits
  import opened Packing
  import opened CSpace
  import opened Retyping
  import opened PageTables
  import opened TableEffects
  import AddressSpaces
  import Threads

  datatype Label =
    | UntypedRetype | TcbConfigure | TcbWriteReg | TcbResume | TcbSetIpcBuffer | NotifyWait | NotifySend
    | CNodeCopy | CNodeMint | CNodeMove | PageMap | PageUnMap | PageTableMap | PageTableUnMap | PageTableMakeRoot
    | EpSend | EpRecv

  datatype Args = Args(a3: nat, a4: nat, a5: nat, a6: nat)

  /** The halves of an argument register. */
  function Hi(x: nat): (r: nat) { x / 0x1_0000_0000 }

  function Lo(x: nat): (r: nat) { x % 0x1_0000_0000 }

  function TypeOf(code: nat): (t: Option<CapType>)
  {
    if code == 1 then Some(Untyped) else if code == 2 then Some(PageTable) else if code == 3 then Some(Tcb)
    else if code == 4 then Some(Page) else if code == 5 then Some(EndPoint) else if code == 7 then Some(CNode)
    else if code == 9 then Some(Notification) else None
  }

  /** The number by which programs name a type. */
  function TypeCode(t: CapType): (code: nat)
  {
    match t
    case Untyped => 1
    case PageTable => 2
    case Tcb => 3
    case Page => 4
    case EndPoint => 5
    case CNode => 7
    case Notification => 9
  }

  lemma {:induction false} TypeRoundTrip(t: CapType)
    ensures TypeOf(TypeCode(t) % 256) == Some(t)
  {
  }

  /** How many registers a thread has, and how many words a message. */
  const REGISTERS: nat := 34
  const MESSAGE_LEN: nat := 128

  /** The part of a thread control block that system calls configure. */
  datatype Config = Config(cspace: Option<Cap>, vspace: Option<Cap>, ipc: Option<Cap>, regs: seq<nat>)

  /** A new thread. */
  function NewConfig(): (c: Config) { Config(None, None, None, seq(REGISTERS, _ => 0)) }

  // ---------------------------------------------------------------- deriving capabilities

  /** The capability that copying or moving puts into the new slot: threads and untyped memory are
      never copied, pages only while mapped; badges and mapped addresses are not passed on. */
  function Derive(c: Cap): (r: Result<Cap>)
  {
    match c.ctype
    case Tcb => Err(CanNotDerivable, 0)
    case Untyped => Err(CanNotDerivable, 0)
    case CNode => Ok(c)
    case PageTable => Ok(c)
    case EndPoint => Ok(c.(word := 0))
    case Notification => Ok(c.(word := 0))
    case Page => if IsMapped(c.word) then Ok(c.(word := 0)) else Err(PageTableNotMappedYet, 0)
  }

  /** A derived capability designates the same object.  It is a copy of a CNode or table capability;
      an endpoint or notification capability has lost its badge, and a page capability its mapping, so
      that nothing can be derived from it until it is mapped itself. */
  lemma {:induction false} DerivedCap(c: Cap)
    ensures Derive(c).Ok? <==> Derivable(c)
    ensures !Derive(c).Ok? ==> Derive(c) == if c.ctype.Page? then Err(PageTableNotMappedYet, 0) else Err(CanNotDerivable, 0)
    ensures Derive(c).Ok? ==> Derive(c).value.ctype == c.ctype && Derive(c).value.addr == c.addr
    ensures Derive(c).Ok? && (c.ctype.CNode? || c.ctype.PageTable?) ==> Derive(c).value == c
    ensures Derive(c).Ok? && (c.ctype.EndPoint? || c.ctype.Notification?) ==> Derive(Derive(c).value) == Derive(c)
    ensures Derive(c).Ok? && c.ctype.Page? ==> Derive(Derive(c).value) == Err(PageTableNotMappedYet, 0)
  {
    ClearWord();
  }

  // ---------------------------------------------------------------- occupied slots

  function SlotAt(nodes: CNodes, p: Place): (s: Slot)
    requires HasSlot(nodes, p)
  {
    nodes[p.node][p.index]
  }

  ghost predicate IsFull(nodes: CNodes, p: Place) { HasSlot(nodes, p) && SlotAt(nodes, p).Full? }

  /** The places of all capabilities. */
  ghost function Occupied(nodes: CNodes): (s: set<Place>)
    ensures forall p :: p in s <==> IsFull(nodes, p)
  {
    var s := set n, i | n in nodes && 0 <= i < |nodes[n]| && nodes[n][i].Full? :: Place(n, i);
    assert forall p :: IsFull(nodes, p) ==> p.node in nodes && 0 <= p.index < |nodes[p.node]| && Place(p.node, p.index) == p;
    s
  }

  lemma {:induction false} OccupiedPut(nodes: CNodes, p: Place, s: Slot)
    requires HasSlot(nodes, p)
    ensures Occupied(Put(nodes, p, s)) == if s.Full? then Occupied(nodes) + {p} else Occupied(nodes) - {p}
    ensures forall q :: HasSlot(nodes, q) && q != p ==> HasSlot(Put(nodes, p, s), q) && SlotAt(Put(nodes, p, s), q) == SlotAt(nodes, q)
  {
    forall q
      ensures IsFull(Put(nodes, p, s), q) <==> if q == p then s.Full? else IsFull(nodes, q)
    {
    }
  }

  /** num places from index on. */
  ghost function Window(node: nat, index: nat, num: nat): (w: set<Place>)
    ensures forall p :: p in w <==> p.node == node && index <= p.index < index + num
  {
    if num == 0 then {} else Window(node, index, num - 1) + {Place(node, index + num - 1)}
  }

  lemma {:induction false} WindowSize(node: nat, index: nat, num: nat)
    ensures |Window(node, index, num)| == num
  {
    if num > 0 {
      WindowSize(node, index, num - 1);
    }
  }

  // ---------------------------------------------------------------- invariants

  /** The word of an untyped capability describes memory the kernel can reach. */
  ghost predicate UntypedOk(c: Cap)
  {
    c.ctype.Untyped? ==>
      && IsPhys(c.addr) && c.addr <= UntypedFree(c.word) && IsPhys(UntypedFree(c.word)) && UntypedFree(c.word) % 8 == 0
      && !UntypedIsDevice(c.word)
  }

  ghost predicate CapsOk(nodes: CNodes)
  {
    && Wf(nodes)
    && forall n, i :: n in nodes && 0 <= i < |nodes[n]| && nodes[n][i].Full? ==> UntypedOk(nodes[n][i].cap)
  }

  lemma {:induction false} PutKeepsCaps(nodes: CNodes, p: Place, s: Slot)
    requires CapsOk(nodes) && HasSlot(nodes, p) && (s.Full? ==> Sound(nodes, s.cap) && UntypedOk(s.cap))
    requires !ZeroEdge(nodes, p, s) || (SlotEmpty(nodes, p) && Harmless(nodes, p, s))
    ensures CapsOk(Put(nodes, p, s)) && forall c :: Sound(nodes, c) ==> Sound(Put(nodes, p, s), c)
  {
    PutKeepsWf(nodes, p, s);
  }

  // ---------------------------------------------------------------- looking up

  function Find(nodes: CNodes, root: Cap, ptr: nat, depth: nat): (r: Result<Place>)
    requires Wf(nodes) && root.ctype.CNode? && Sound(nodes, root)
    ensures r.Ok? ==> HasSlot(nodes, r.value)
  {
    if depth >= root.Radix() + 64 then Halt else Resolve(nodes, root, PathBits(ptr, depth))
  }

  /** Where an occupied slot is found. */
  function FindFull(nodes: CNodes, root: Cap, ptr: nat, depth: nat): (r: Result<Place>)
    requires Wf(nodes) && root.ctype.CNode? && Sound(nodes, root)
    ensures r.Ok? ==> IsFull(nodes, r.value)
  {
    match Find(nodes, root, ptr, depth)
    case Ok(p) => if SlotAt(nodes, p).Empty? then Err(SlotIsEmpty, 0) else Ok(p)
    case Err(k, d) => Err(k, d)
    case Halt => Halt
  }

  /** Where a capability of the given type is found. */
  function FindTyped(nodes: CNodes, root: Cap, ptr: nat, depth: nat, t: CapType): (r: Result<Place>)
    requires Wf(nodes) && root.ctype.CNode? && Sound(nodes, root)
    ensures r.Ok? ==> IsFull(nodes, r.value) && SlotAt(nodes, r.value).cap.ctype == t
  {
    match FindFull(nodes, root, ptr, depth)
    case Ok(p) => if SlotAt(nodes, p).cap.ctype != t then Err(UnexpectedCapType, 0) else Ok(p)
    case Err(k, d) => Err(k, d)
    case Halt => Halt
  }

  /** A capability of the type is found exactly if the address leads to a slot that holds one; an address with too few
      bits, an empty slot and another type are different errors. */
  lemma {:induction false} FoundExactly(nodes: CNodes, root: Cap, ptr: nat, depth: nat, t: CapType)
    requires Wf(nodes) && root.ctype.CNode? && Sound(nodes, root)
    ensures var p, r := Find(nodes, root, ptr, depth), FindTyped(nodes, root, ptr, depth, t);
            && (p.Halt? <==> depth >= root.Radix() + 64) && (p.Err? ==> p == Err(OutOfMemory, 0))
            && (r.Ok? <==> p.Ok? && SlotAt(nodes, p.value).Full? && SlotAt(nodes, p.value).cap.ctype == t) && (r.Ok? ==> r == p)
            && (p.Ok? && SlotAt(nodes, p.value).Empty? ==> r == Err(SlotIsEmpty, 0))
            && (p.Ok? && SlotAt(nodes, p.value).Full? && SlotAt(nodes, p.value).cap.ctype != t ==> r == Err(UnexpectedCapType, 0))
            && (!p.Ok? ==> r == p)
  {
  }

  // ---------------------------------------------------------------- copy, mint and move

  datatype Copying = Copying(src: Place, dest: Place, cap: Cap)

  /** What an invocation of the CNode capability `into` is to do: the source is looked up from the
      caller's root, the destination from `into`, and the destination must be empty. */
  function CopyPlan(nodes: CNodes, root: Cap, into: Cap, inv: Label, args: Args): (r: Result<Copying>)
    requires Wf(nodes) && root.ctype.CNode? && Sound(nodes, root) && into.ctype.CNode? && Sound(nodes, into)
    ensures r.Ok? ==> IsFull(nodes, r.value.src) && HasSlot(nodes, r.value.dest) && SlotEmpty(nodes, r.value.dest)
    ensures r.Ok? ==> r.value.cap.ctype == SlotAt(nodes, r.value.src).cap.ctype && r.value.cap.addr == SlotAt(nodes, r.value.src).cap.addr
    ensures r.Ok? ==> !r.value.cap.ctype.Tcb? && !r.value.cap.ctype.Untyped?
  {
    match FindFull(nodes, root, args.a3, Lo(Hi(args.a4)))
    case Err(k, d) => Err(k, d)
    case Halt => Halt
    case Ok(src) =>
      match Find(nodes, into, args.a5, Lo(args.a4))
      case Err(k, d) => Err(k, d)
      case Halt => Halt
      case Ok(dest) =>
        if SlotAt(nodes, dest).Full? then Err(NotEmptySlot, 0)
        else match Derive(SlotAt(nodes, src).cap)
          case Err(k, d) => Err(k, d)
          case Halt => Halt
          case Ok(cap) => Ok(Copying(src, dest, if inv.CNodeMint? then cap.(word := args.a6) else cap))
  }

  /** Copying, minting and moving are granted exactly if the source is found from the caller's root, the destination is
      found from `into` and is empty, and something can be derived: threads and untyped memory cannot be copied,
      pages only while they are mapped.  Those are then the two places, and a copy of what is in the one goes into
      the other. */
  lemma {:induction false} CopyGranted(nodes: CNodes, root: Cap, into: Cap, inv: Label, args: Args)
    requires Wf(nodes) && root.ctype.CNode? && Sound(nodes, root) && into.ctype.CNode? && Sound(nodes, into)
    ensures var src, dest := FindFull(nodes, root, args.a3, Lo(Hi(args.a4))), Find(nodes, into, args.a5, Lo(args.a4));
            && (CopyPlan(nodes, root, into, inv, args).Ok? <==>
                  src.Ok? && dest.Ok? && SlotAt(nodes, dest.value).Empty? && Derivable(SlotAt(nodes, src.value).cap))
            && (CopyPlan(nodes, root, into, inv, args).Ok? ==>
                  var c := CopyPlan(nodes, root, into, inv, args).value;
                  c.src == src.value && c.dest == dest.value && c.cap == CopyOf(SlotAt(nodes, src.value).cap, inv, args.a6))
    ensures var src, dest := FindFull(nodes, root, args.a3, Lo(Hi(args.a4))), Find(nodes, into, args.a5, Lo(args.a4));
            && (!src.Ok? ==> CopyPlan(nodes, root, into, inv, args) == Fail(src))
            && (src.Ok? && !dest.Ok? ==> CopyPlan(nodes, root, into, inv, args) == Fail(dest))
            && (src.Ok? && dest.Ok? && SlotAt(nodes, dest.value).Full? ==> CopyPlan(nodes, root, into, inv, args) == Err(NotEmptySlot, 0))
  {
    var src := FindFull(nodes, root, args.a3, Lo(Hi(args.a4)));
    if src.Ok? { DerivedCap(SlotAt(nodes, src.value).cap); }
  }

  /** A copy designates the same object.  With a value minted onto it it has that as its word; otherwise CNodes and tables
      keep theirs, and nothing else does. */
  function CopyOf(c: Cap, inv: Label, value: nat): (r: Cap)
  {
    c.(word := if inv.CNodeMint? then value else if c.ctype.CNode? || c.ctype.PageTable? then c.word else 0)
  }

  predicate Derivable(c: Cap) { !c.ctype.Tcb? && !c.ctype.Untyped? && (c.ctype.Page? ==> IsMapped(c.word)) }

  /** The slots before the destination is filled: a move empties the source. */
  function Emptied(nodes: CNodes, inv: Label, c: Copying): (r: CNodes)
    requires HasSlot(nodes, c.src)
  {
    if inv.CNodeMove? then Put(nodes, c.src, Empty) else nodes
  }

  /** The slots afterwards. */
  function Copied(nodes: CNodes, inv: Label, c: Copying): (r: CNodes)
    requires HasSlot(nodes, c.src) && HasSlot(nodes, c.dest)
  {
    Put(Emptied(nodes, inv, c), c.dest, Full(c.cap))
  }

  /** Copying and minting occupy one more slot, which was empty; moving occupies as many as before;
      no other slot changes. */
  lemma {:induction false} CopyConserves(nodes: CNodes, root: Cap, into: Cap, inv: Label, args: Args)
    requires Wf(nodes) && root.ctype.CNode? && Sound(nodes, root) && into.ctype.CNode? && Sound(nodes, into)
    requires CopyPlan(nodes, root, into, inv, args).Ok?
    ensures var c := CopyPlan(nodes, root, into, inv, args).value;
            var r := Copied(nodes, inv, c);
            && c.src in Occupied(nodes) && c.dest !in Occupied(nodes)
            && Occupied(r) == (if inv.CNodeMove? then Occupied(nodes) - {c.src} else Occupied(nodes)) + {c.dest}
            && |Occupied(r)| == |Occupied(nodes)| + (if inv.CNodeMove? then 0 else 1)
            && SlotAt(r, c.dest) == Full(c.cap)
            && forall q :: HasSlot(nodes, q) && q != c.dest && !(inv.CNodeMove? && q == c.src) ==>
                             HasSlot(r, q) && SlotAt(r, q) == SlotAt(nodes, q)
  {
    var c := CopyPlan(nodes, root, into, inv, args).value;
    if inv.CNodeMove? {
      OccupiedPut(nodes, c.src, Empty);
      OccupiedPut(Put(nodes, c.src, Empty), c.dest, Full(c.cap));
    } else {
      OccupiedPut(nodes, c.dest, Full(c.cap));
    }
  }

  /** Unless a CNode's radix is minted over, all capabilities stay sound, and no lookup goes round in
      circles afterwards exactly if the new slot closes no circle. */
  lemma {:induction false} CopyKeepsCaps(nodes: CNodes, root: Cap, into: Cap, inv: Label, args: Args)
    requires CapsOk(nodes) && root.ctype.CNode? && Sound(nodes, root) && into.ctype.CNode? && Sound(nodes, into)
    requires CopyPlan(nodes, root, into, inv, args).Ok?
    requires var cap := CopyPlan(nodes, root, into, inv, args).value.cap; inv.CNodeMint? ==> !cap.ctype.CNode?
    ensures var c := CopyPlan(nodes, root, into, inv, args).value;
            var r := Copied(nodes, inv, c);
            && (CapsOk(r) <==> Harmless(Emptied(nodes, inv, c), c.dest, Full(c.cap)))
            && forall c :: Sound(nodes, c) ==> Sound(r, c)
  {
    var c := CopyPlan(nodes, root, into, inv, args).value;
    var was := Emptied(nodes, inv, c);
    assert Sound(nodes, SlotAt(nodes, c.src).cap);
    if inv.CNodeMove? {
      PutKeepsCaps(nodes, c.src, Empty);
    }
    FillGrounded(was, c.dest, Full(c.cap));
    PutKeepsSound(was, c.dest, Full(c.cap));
    if Harmless(was, c.dest, Full(c.cap)) {
      PutKeepsCaps(was, c.dest, Full(c.cap));
    }
  }

  // ---------------------------------------------------------------- retype

  predicate AllEmpty(slots: seq<Slot>, index: nat, num: nat)
    requires index + num <= |slots|
  {
    forall i :: index <= i < index + num ==> slots[i].Empty?
  }

  /** Whether num slots from index on can be filled: they must end before the last slot of the CNode
      and be empty; asking for none stops the kernel. */
  function Writable(slots: seq<Slot>, num: nat, index: nat): (r: Result<()>)
  {
    if num + index >= |slots| then Err(InvalidOperation, 0)
    else if !AllEmpty(slots, index, num) then Err(NotEmptySlot, 0)
    else if num == 0 then Halt
    else Ok(())
  }

  datatype Making = Making(kind: CapType, node: nat, index: nat, num: nat, userSize: nat, layout: Layout)

  /** What retyping the untyped capability c is to make, and where the capabilities go. */
  function MakePlan(nodes: CNodes, root: Cap, c: Cap, args: Args, tcbSize: nat): (r: Result<Making>)
    requires Wf(nodes) && root.ctype.CNode? && Sound(nodes, root) && c.ctype.Untyped? && UntypedOk(c) && tcbSize % 8 == 0
    ensures r.Ok? ==> r.value.node in nodes && Writable(nodes[r.value.node], r.value.num, r.value.index).Ok? && !r.value.kind.Untyped?
    ensures r.Ok? ==> r.value.num == Lo(args.a5) && (r.value.kind.CNode? ==> r.value.userSize < 59)
  {
    match TypeOf(args.a6 % 256)
    case None => Err(UnknownCapType, 0)
    case Some(kind) =>
      match FindTyped(nodes, root, args.a3, Lo(args.a4), CNode)
      case Err(k, d) => Err(k, d)
      case Halt => Halt
      case Ok(p) =>
        assert Sound(nodes, SlotAt(nodes, p).cap);
        var node, index, num, userSize := SlotAt(nodes, p).cap.addr, Lo(Hi(args.a4)), Lo(args.a5), Hi(args.a5);
        match Writable(nodes[node], num, index)
        case Err(k, d) => Err(k, d)
        case Halt => Halt
        case Ok(_) =>
          if kind.Untyped? then Err(UnknownCapType, 0)
          else match Plan(c.addr, UntypedBits(c.word), UntypedFree(c.word), kind, userSize, num, tcbSize)
            case Err(k, d) => Err(k, d)
            case Halt => Halt
            case Ok(l) => Ok(Making(kind, node, index, num, userSize, l))
  }

  /** Retyping is granted exactly if the type is known and not untyped memory, a CNode is found, the slots asked for can be
      filled and the block has room; then it makes what was asked for, there. */
  lemma {:induction false} RetypeGranted(nodes: CNodes, root: Cap, c: Cap, args: Args, tcbSize: nat)
    requires Wf(nodes) && root.ctype.CNode? && Sound(nodes, root) && c.ctype.Untyped? && UntypedOk(c) && tcbSize % 8 == 0
    ensures var kind, p := TypeOf(args.a6 % 256), FindTyped(nodes, root, args.a3, Lo(args.a4), CNode);
            && (p.Ok? ==> SlotAt(nodes, p.value).cap.addr in nodes)
            && (MakePlan(nodes, root, c, args, tcbSize).Ok? <==>
                  && kind.Some? && !kind.value.Untyped? && p.Ok?
                  && Writable(nodes[SlotAt(nodes, p.value).cap.addr], Lo(args.a5), Lo(Hi(args.a4))).Ok?
                  && Plan(c.addr, UntypedBits(c.word), UntypedFree(c.word), kind.value, Hi(args.a5), Lo(args.a5), tcbSize).Ok?)
            && (MakePlan(nodes, root, c, args, tcbSize).Ok? ==>
                  var m := MakePlan(nodes, root, c, args, tcbSize).value;
                  && m.kind == kind.value && m.node == SlotAt(nodes, p.value).cap.addr && m.index == Lo(Hi(args.a4)) && m.num == Lo(args.a5)
                  && m.userSize == Hi(args.a5)
                  && Ok(m.layout) == Plan(c.addr, UntypedBits(c.word), UntypedFree(c.word), m.kind, m.userSize, m.num, tcbSize))
            && (kind.None? ==> MakePlan(nodes, root, c, args, tcbSize) == Err(UnknownCapType, 0))
  {
    var p := FindTyped(nodes, root, args.a3, Lo(args.a4), CNode);
    if p.Ok? { assert Sound(nodes, SlotAt(nodes, p.value).cap); }
  }

  function NewSlot(m: Making, i: nat): (s: Slot)
  {
    Full(Cap(m.kind, m.layout.ObjectAt(i), NewWord(m.kind, m.userSize)))
  }

  /** The slots of the destination with the new capabilities. */
  function Filled(slots: seq<Slot>, m: Making): (r: seq<Slot>)
    ensures |r| == |slots|
    ensures forall i :: 0 <= i < |slots| ==> r[i] == if m.index <= i < m.index + m.num then NewSlot(m, i - m.index) else slots[i]
  {
    seq(|slots|, i requires 0 <= i < |slots| => if m.index <= i < m.index + m.num then NewSlot(m, i - m.index) else slots[i])
  }

  /** New CNodes are empty. */
  function WithCNodes(nodes: CNodes, m: Making, n: nat): (r: CNodes)
    requires m.userSize < 59
    ensures forall k :: k in nodes ==> k in r && r[k] == nodes[k]
    ensures forall k :: k in r && k !in nodes ==> r[k] == EmptyNode(m.userSize)
    ensures forall i :: 0 <= i < n ==> m.layout.ObjectAt(i) in r
  {
    if n == 0 then nodes
    else
      var r := WithCNodes(nodes, m, n - 1);
      var addr := m.layout.ObjectAt(n - 1);
      if addr in r then r else r[addr := EmptyNode(m.userSize)]
  }

  function EmptyNode(radix: nat): (slots: seq<Slot>)
    ensures |slots| == Pow2(radix) && forall i :: 0 <= i < |slots| ==> slots[i].Empty?
  {
    seq(Pow2(radix), _ => Empty)
  }

  /** The slots before new CNodes are added. */
  function Rewritten(nodes: CNodes, slot: Place, m: Making): (r: CNodes)
    requires IsFull(nodes, slot) && m.node in nodes
    ensures HasSlot(r, slot) && SlotAt(r, slot) == MovedFree(SlotAt(nodes, slot).cap, m)
    ensures forall k :: k in r <==> k in nodes
    ensures forall k :: k in nodes ==> |r[k]| == |nodes[k]|
    ensures forall q :: HasSlot(nodes, q) && q != slot && !InWindow(m, q) ==> SlotAt(r, q) == SlotAt(nodes, q)
    ensures forall q :: HasSlot(nodes, q) && q != slot && InWindow(m, q) ==> SlotAt(r, q) == NewSlot(m, q.index - m.index)
  {
    Put(nodes[m.node := Filled(nodes[m.node], m)], slot, MovedFree(SlotAt(nodes, slot).cap, m))
  }

  function MovedFree(c: Cap, m: Making): (s: Slot)
  {
    Full(c.(word := UntypedWord(m.layout.end, UntypedBits(c.word))))
  }

  predicate InWindow(m: Making, q: Place) { q.node == m.node && m.index <= q.index < m.index + m.num }

  /** All slots after the untyped capability in `slot` has been retyped. */
  function Retyped(nodes: CNodes, slot: Place, m: Making): (r: CNodes)
    requires IsFull(nodes, slot) && m.node in nodes && (m.kind.CNode? ==> m.userSize < 59)
  {
    if m.kind.CNode? then WithCNodes(Rewritten(nodes, slot, m), m, m.num) else Rewritten(nodes, slot, m)
  }

  /** What is in each slot afterwards. */
  lemma {:induction false} RetypedSlot(nodes: CNodes, slot: Place, m: Making, q: Place)
    requires IsFull(nodes, slot) && m.node in nodes && Writable(nodes[m.node], m.num, m.index).Ok?
    requires HasSlot(nodes, q) && (m.kind.CNode? ==> m.userSize < 59)
    ensures HasSlot(Retyped(nodes, slot, m), q)
    ensures SlotAt(Retyped(nodes, slot, m), q) ==
            if q == slot then MovedFree(SlotAt(nodes, slot).cap, m)
            else if InWindow(m, q) then NewSlot(m, q.index - m.index)
            else SlotAt(nodes, q)
    ensures q == slot ==> !InWindow(m, q)
  {
  }

  lemma {:induction false} NewNodesEmpty(nodes: CNodes, slot: Place, m: Making, q: Place)
    requires IsFull(nodes, slot) && m.node in nodes && (m.kind.CNode? ==> m.userSize < 59) && !HasSlot(nodes, q)
    ensures !IsFull(Retyped(nodes, slot, m), q)
  {
  }

  lemma {:induction false} RetypedFull(nodes: CNodes, slot: Place, m: Making, q: Place)
    requires IsFull(nodes, slot) && m.node in nodes && Writable(nodes[m.node], m.num, m.index).Ok?
    requires m.kind.CNode? ==> m.userSize < 59
    ensures IsFull(Retyped(nodes, slot, m), q) <==> IsFull(nodes, q) || InWindow(m, q)
    ensures InWindow(m, q) ==> !IsFull(nodes, q)
  {
    if HasSlot(nodes, q) {
      RetypedSlot(nodes, slot, m, q);
    } else {
      NewNodesEmpty(nodes, slot, m, q);
    }
  }

  ghost predicate NewSlots(slots: seq<Slot>, index: nat, num: nat, m: Making)
  {
    index + num <= |slots| && forall i :: index <= i < index + num ==> slots[i] == NewSlot(m, i - index)
  }

  /** The new capabilities are in the slots asked for, in order. */
  lemma {:induction false} RetypedWindow(nodes: CNodes, slot: Place, m: Making)
    requires IsFull(nodes, slot) && m.node in nodes && Writable(nodes[m.node], m.num, m.index).Ok?
    requires m.kind.CNode? ==> m.userSize < 59
    ensures var r := Retyped(nodes, slot, m);
            m.node in r && NewSlots(r[m.node], m.index, m.num, m)
  {
    var r := Retyped(nodes, slot, m);
    forall i | m.index <= i < m.index + m.num
      ensures r[m.node][i] == NewSlot(m, i - m.index)
    {
      RetypedSlot(nodes, slot, m, Place(m.node, i));
    }
  }

  lemma {:induction false} SetGrows(s: set<Place>, t: set<Place>, w: set<Place>)
    requires w !! s && forall q :: q in t <==> q in s || q in w
    ensures t == s + w && |t| == |s| + |w|
  {
  }

  lemma {:induction false} OccupiedGrows(nodes: CNodes, r: CNodes, m: Making)
    requires forall q :: IsFull(r, q) <==> IsFull(nodes, q) || InWindow(m, q)
    requires forall q :: InWindow(m, q) ==> !IsFull(nodes, q)
    ensures var w := Window(m.node, m.index, m.num);
            w !! Occupied(nodes) && Occupied(r) == Occupied(nodes) + w && |Occupied(r)| == |Occupied(nodes)| + m.num
  {
    var s, t, w := Occupied(nodes), Occupied(r), Window(m.node, m.index, m.num);
    forall q
      ensures q in t <==> q in s || q in w
      ensures q in w ==> q !in s
    {
      assert q in w <==> InWindow(m, q);
      assert q in s <==> IsFull(nodes, q);
      assert q in t <==> IsFull(r, q);
    }
    SetGrows(s, t, w);
    WindowSize(m.node, m.index, m.num);
  }

  /** Retyping num objects occupies num more slots, exactly those asked for, which were empty. */
  lemma {:induction false} RetypeConserves(nodes: CNodes, slot: Place, m: Making)
    requires IsFull(nodes, slot) && m.node in nodes && Writable(nodes[m.node], m.num, m.index).Ok?
    requires m.kind.CNode? ==> m.userSize < 59
    ensures var r, w := Retyped(nodes, slot, m), Window(m.node, m.index, m.num);
            w !! Occupied(nodes) && Occupied(r) == Occupied(nodes) + w && |Occupied(r)| == |Occupied(nodes)| + m.num
  {
    var r := Retyped(nodes, slot, m);
    forall q
      ensures IsFull(r, q) <==> IsFull(nodes, q) || InWindow(m, q)
      ensures InWindow(m, q) ==> !IsFull(nodes, q)
    {
      RetypedFull(nodes, slot, m, q);
    }
    OccupiedGrows(nodes, r, m);
  }

  /** The new CNodes, if any, lie where no CNode is. */
  ghost predicate FreshNodes(nodes: CNodes, m: Making)
  {
    m.kind.CNode? ==> forall i :: 0 <= i < m.num ==> m.layout.ObjectAt(i) !in nodes
  }

  lemma {:induction false} NewCapSound(nodes: CNodes, r: CNodes, m: Making, i: nat)
    requires FreshNodes(nodes, m) && i < m.num && (m.kind.CNode? ==> m.userSize < 59) && !m.kind.Untyped?
    requires m.kind.CNode? ==> var a := m.layout.ObjectAt(i); a in r && (a !in nodes ==> r[a] == EmptyNode(m.userSize))
    ensures Sound(r, NewSlot(m, i).cap) && UntypedOk(NewSlot(m, i).cap)
  {
    if m.kind.CNode? { SmallMod(m.userSize, 0x1_0000_0000); }
  }

  lemma {:induction false} MovedFreeOk(c: Cap, kind: CapType, userSize: nat, num: nat, tcbSize: nat)
    requires c.ctype.Untyped? && UntypedOk(c) && !kind.Untyped? && tcbSize % 8 == 0
    requires Plan(c.addr, UntypedBits(c.word), UntypedFree(c.word), kind, userSize, num, tcbSize).Ok?
    ensures var l := Plan(c.addr, UntypedBits(c.word), UntypedFree(c.word), kind, userSize, num, tcbSize).value;
            UntypedOk(c.(word := UntypedWord(l.end, UntypedBits(c.word))))
  {
    PlanIsTidy(c.addr, UntypedBits(c.word), UntypedFree(c.word), kind, userSize, num, tcbSize);
    UntypedRoundTrip(Plan(c.addr, UntypedBits(c.word), UntypedFree(c.word), kind, userSize, num, tcbSize).value.end, UntypedBits(c.word));
  }

  /** No step without bits is added: the slots that are filled are in a CNode of several slots, and new
      CNodes are empty. */
  lemma {:induction false} RetypeGrounded(nodes: CNodes, slot: Place, m: Making)
    requires Grounded(nodes) && IsFull(nodes, slot) && SlotAt(nodes, slot).cap.ctype.Untyped?
    requires m.node in nodes && Writable(nodes[m.node], m.num, m.index).Ok? && (m.kind.CNode? ==> m.userSize < 59)
    ensures Grounded(Retyped(nodes, slot, m))
  {
    var r := Retyped(nodes, slot, m);
    RetypedShape(nodes, slot, m);
    forall a: nat | ZeroNext(r, a).Some?
      ensures ZeroNext(r, a) == ZeroNext(nodes, a)
    {
      assert IsFull(r, Place(a, 0));
      if HasSlot(nodes, Place(a, 0)) {
        RetypedSlot(nodes, slot, m, Place(a, 0));
      } else {
        NewNodesEmpty(nodes, slot, m, Place(a, 0));
      }
    }
    FewerSteps(nodes, r);
  }

  /** Making CNodes in fresh memory, or anything else, keeps all capabilities sound. */
  lemma {:induction false} RetypeKeepsCaps(nodes: CNodes, slot: Place, m: Making)
    requires CapsOk(nodes) && IsFull(nodes, slot) && SlotAt(nodes, slot).cap.ctype.Untyped?
    requires m.node in nodes && Writable(nodes[m.node], m.num, m.index).Ok? && !m.kind.Untyped?
    requires UntypedOk(SlotAt(nodes, slot).cap.(word := UntypedWord(m.layout.end, UntypedBits(SlotAt(nodes, slot).cap.word))))
    requires FreshNodes(nodes, m) && (m.kind.CNode? ==> m.userSize < 59)
    ensures var r := Retyped(nodes, slot, m); CapsOk(r) && forall c :: Sound(nodes, c) ==> Sound(r, c)
  {
    var r: CNodes := Retyped(nodes, slot, m);
    RetypedShape(nodes, slot, m);
    RetypeGrounded(nodes, slot, m);
    forall n, i | n in r && 0 <= i < |r[n]| && r[n][i].Full?
      ensures Sound(r, r[n][i].cap) && UntypedOk(r[n][i].cap)
    {
      RetypedCap(nodes, slot, m, Place(n, i));
    }
  }

  lemma {:induction false} RetypedShape(nodes: CNodes, slot: Place, m: Making)
    requires IsFull(nodes, slot) && m.node in nodes && (m.kind.CNode? ==> m.userSize < 59)
    ensures var r := Retyped(nodes, slot, m);
            && (forall n :: n in nodes ==> n in r && |r[n]| == |nodes[n]|)
            && (forall n :: n in r && n !in nodes ==> r[n] == EmptyNode(m.userSize))
            && (forall c :: Sound(nodes, c) ==> Sound(r, c))
            && (m.kind.CNode? ==> forall i :: 0 <= i < m.num ==> m.layout.ObjectAt(i) in r)
  {
  }

  lemma {:induction false} RetypedCap(nodes: CNodes, slot: Place, m: Making, p: Place)
    requires CapsOk(nodes) && IsFull(nodes, slot) && SlotAt(nodes, slot).cap.ctype.Untyped?
    requires m.node in nodes && Writable(nodes[m.node], m.num, m.index).Ok? && !m.kind.Untyped?
    requires UntypedOk(SlotAt(nodes, slot).cap.(word := UntypedWord(m.layout.end, UntypedBits(SlotAt(nodes, slot).cap.word))))
    requires FreshNodes(nodes, m) && (m.kind.CNode? ==> m.userSize < 59)
    requires IsFull(Retyped(nodes, slot, m), p)
    ensures Sound(Retyped(nodes, slot, m), SlotAt(Retyped(nodes, slot, m), p).cap) && UntypedOk(SlotAt(Retyped(nodes, slot, m), p).cap)
  {
    var r := Retyped(nodes, slot, m);
    RetypedShape(nodes, slot, m);
    if HasSlot(nodes, p) {
      RetypedSlot(nodes, slot, m, p);
      if p != slot {
        if InWindow(m, p) {
          NewCapSound(nodes, r, m, p.index - m.index);
        } else {
          assert Sound(nodes, nodes[p.node][p.index].cap);
        }
      }
    } else {
      NewNodesEmpty(nodes, slot, m, p);
    }
  }

  lemma {:induction false} InsertedIsFilled(slots: seq<Slot>, r: seq<Slot>, m: Making)
    requires m.index + m.num <= |slots| && Inserted(slots, r, m.index, m.kind, m.userSize, m.layout, m.num)
    ensures r == Filled(slots, m)
  {
    forall i | 0 <= i < |slots|
      ensures r[i] == Filled(slots, m)[i]
    {
    }
  }

  // ---------------------------------------------------------------- objects that retyping initialises

  /** New page tables are cleared, whatever was there. */
  function WithTables(ts: Tables, m: Making, n: nat): (r: Tables)
    ensures Shape(ts) ==> Shape(r)
  {
    if n == 0 then ts else WithTables(ts, m, n - 1)[m.layout.ObjectAt(n - 1) := seq(512, _ => EMPTY)]
  }

  /** New threads are not configured, whatever was there. */
  function WithThreads(configs: map<nat, Config>, m: Making, n: nat): (r: map<nat, Config>)
    ensures forall t :: t in configs ==> t in r
    ensures forall i :: 0 <= i < n ==> m.layout.ObjectAt(i) in r && r[m.layout.ObjectAt(i)] == NewConfig()
  {
    if n == 0 then configs else WithThreads(configs, m, n - 1)[m.layout.ObjectAt(n - 1) := NewConfig()]
  }

  /** The new objects hang in no address space. */
  ghost predicate OutsideSpaces(lv: map<nat, nat>, m: Making, n: nat)
  {
    forall i :: 0 <= i < n ==> m.layout.ObjectAt(i) !in lv
  }

  lemma {:induction false} NewTableStands(ts: Tables, lv: map<nat, nat>, kr: seq<Pte>, t: nat)
    requires Standing(ts, lv, kr) && t !in lv
    ensures var ts' := ts[t := seq(512, _ => EMPTY)]; Standing(ts', lv, kr) && Bindings(ts', lv) == Bindings(ts, lv)
  {
    OutsideStands(ts, lv, kr, t, seq(512, _ => EMPTY));
  }

  lemma {:induction false} NewTablesStand(ts: Tables, lv: map<nat, nat>, kr: seq<Pte>, m: Making, n: nat)
    requires Standing(ts, lv, kr) && OutsideSpaces(lv, m, n)
    ensures Standing(WithTables(ts, m, n), lv, kr) && Bindings(WithTables(ts, m, n), lv) == Bindings(ts, lv)
  {
    if n > 0 {
      NewTablesStand(ts, lv, kr, m, n - 1);
      var before, t := WithTables(ts, m, n - 1), m.layout.ObjectAt(n - 1);
      assert t !in lv;
      NewTableStands(before, lv, kr, t);
    }
  }

  /** Every thread that a capability designates has been made. */
  ghost predicate ThreadsKnown(nodes: CNodes, configs: map<nat, Config>)
  {
    forall n, i :: n in nodes && 0 <= i < |nodes[n]| && nodes[n][i].Full? && nodes[n][i].cap.ctype.Tcb? ==> nodes[n][i].cap.addr in configs
  }

  lemma {:induction false} PutKnown(nodes: CNodes, p: Place, s: Slot, configs: map<nat, Config>)
    requires ThreadsKnown(nodes, configs) && HasSlot(nodes, p)
    requires s.Full? && s.cap.ctype.Tcb? ==> s.cap.addr in configs
    ensures ThreadsKnown(Put(nodes, p, s), configs)
  {
  }

  lemma {:induction false} CopiedKnown(nodes: CNodes, inv: Label, c: Copying, configs: map<nat, Config>)
    requires ThreadsKnown(nodes, configs) && HasSlot(nodes, c.src) && HasSlot(nodes, c.dest) && !c.cap.ctype.Tcb?
    ensures ThreadsKnown(Copied(nodes, inv, c), configs)
  {
    PutKnown(nodes, c.src, Empty, configs);
    PutKnown(Emptied(nodes, inv, c), c.dest, Full(c.cap), configs);
  }

  lemma {:induction false} RetypedKnown(nodes: CNodes, slot: Place, m: Making, configs: map<nat, Config>)
    requires ThreadsKnown(nodes, configs) && IsFull(nodes, slot) && SlotAt(nodes, slot).cap.ctype.Untyped?
    requires m.node in nodes && Writable(nodes[m.node], m.num, m.index).Ok? && (m.kind.CNode? ==> m.userSize < 59)
    ensures ThreadsKnown(Retyped(nodes, slot, m), if m.kind.Tcb? then WithThreads(configs, m, m.num) else configs)
  {
    var r: CNodes := Retyped(nodes, slot, m);
    forall n, i | n in r && 0 <= i < |r[n]| && r[n][i].Full? && r[n][i].cap.ctype.Tcb?
      ensures r[n][i].cap.addr in if m.kind.Tcb? then WithThreads(configs, m, m.num) else configs
    {
      var q := Place(n, i);
      if HasSlot(nodes, q) {
        RetypedSlot(nodes, slot, m, q);
      } else {
        NewNodesEmpty(nodes, slot, m, q);
      }
    }
  }

  // ---------------------------------------------------------------- what an invocation does to address spaces

  /** The page table that an invocation names. */
  function TableNamed(nodes: CNodes, root: Cap, args: Args): (r: Result<nat>)
    requires Wf(nodes) && root.ctype.CNode? && Sound(nodes, root)
  {
    match FindTyped(nodes, root, args.a3, Lo(args.a4), PageTable)
    case Ok(p) => Ok(SlotAt(nodes, p).cap.addr)
    case Err(k, d) => Err(k, d)
    case Halt => Halt
  }

  /** Where the page c is mapped, or is to be. */
  function PagePath(c: Cap, inv: Label, args: Args): (ix: seq<nat>)
    ensures IsPath(ix)
  {
    Indices(if inv.PageMap? then args.a5 else MappedAddress(c.word))
  }

  /** The bits of the page number that a word holds already are among those of the address. */
  predicate Covers(vaddr: nat, word: nat) { Or(PageNumber(word), PageNumber(vaddr)) == PageNumber(vaddr) }

  /** The word of the page c afterwards.  A page that is mapped says so and remembers where, exactly if its word held no
      other address bits, as that of a new page or of a copy does not; one that is unmapped remembers nothing. */
  function PageWord(c: Cap, inv: Label, args: Args): (w: nat)
    ensures inv.PageMap? ==> IsMapped(w) && (Indices(MappedAddress(w)) == Indices(args.a5) <==> Covers(args.a5, c.word))
    ensures inv.PageMap? && MappedAddress(c.word) == 0 ==> Indices(MappedAddress(w)) == Indices(args.a5)
    ensures !inv.PageMap? ==> !IsMapped(w) && MappedAddress(w) == 0
  {
    if inv.PageMap? then MarkedIndices(c.word, args.a5); Or(c.word, SetMapped(args.a5)) else 0
  }

  lemma {:induction false} MarkedIndices(word: nat, vaddr: nat)
    ensures var w := Or(word, SetMapped(vaddr)); IsMapped(w) && (Indices(MappedAddress(w)) == Indices(vaddr) <==> Covers(vaddr, word))
    ensures MappedAddress(word) == 0 ==> Covers(vaddr, word)
  {
    MarkedWord(word, vaddr);
    SameIndices(MappedAddress(Or(word, SetMapped(vaddr))), vaddr);
    if MappedAddress(word) == 0 {
      ClearCovers(word, vaddr);
    }
  }

  lemma {:induction false} ClearCovers(word: nat, vaddr: nat)
    requires MappedAddress(word) == 0
    ensures Covers(vaddr, word)
  {
    LowBitsKeepPage(word);
    assert PageNumber(word) == 0;
    OrZero(PageNumber(vaddr));
  }

  lemma {:induction false} SameIndices(a: nat, b: nat)
    ensures Indices(a) == Indices(b) <==> PageNumber(a) == PageNumber(b)
  {
    SameIndicesSamePage(a, b);
    var x, y := Indices(a), Indices(b);
    assert x[0] == Vpn(a, 0) && x[1] == Vpn(a, 1) && x[2] == Vpn(a, 2) && x[3] == Vpn(a, 3);
    assert y[0] == Vpn(b, 0) && y[1] == Vpn(b, 1) && y[2] == Vpn(b, 2) && y[3] == Vpn(b, 3);
  }

  /** The word of the table c afterwards: it says that the table is mapped, and whether it is a root. */
  function TableWord(c: Cap, inv: Label, args: Args): (w: nat)
    ensures IsMapped(w) && (!inv.PageTableMap? ==> IsRoot(w)) && (inv.PageTableMap? ==> (IsRoot(w) <==> IsRoot(c.word)))
  {
    if inv.PageTableMap? then MarkedWord(c.word, args.a5); Or(c.word, SetMapped(args.a5)) else AddressSpaces.RootWord(c.addr, c.word)
  }

  /** What invoking the page c gives. */
  function PageAnswer(nodes: CNodes, root: Cap, c: Cap, inv: Label, args: Args, ts: Tables): (r: Result<()>)
    requires Wf(nodes) && root.ctype.CNode? && Sound(nodes, root) && Shape(ts)
  {
    match inv
    case PageMap =>
      if args.a5 % PAGE_SIZE != 0 then Err(NotAligned, PAGE_SIZE)
      else (
        match TableNamed(nodes, root, args)
        case Err(k, d) => Err(k, d)
        case Halt => Halt
        case Ok(t) => if IsMapped(c.word) then Err(PageAlreadyMapped, 0) else AddressSpaces.MapAnswer(ts, t, Indices(args.a5)))
    case PageUnMap =>
      (match TableNamed(nodes, root, args)
       case Err(k, d) => Err(k, d)
       case Halt => Halt
       case Ok(t) =>
         if !IsMapped(c.word) then Err(PageNotMappedYet, 0) else AddressSpaces.UnmapAnswer(ts, t, Indices(MappedAddress(c.word)), c.addr))
    case _ => Err(UnknownInvocation, 0)
  }

  /** What invoking the table c gives; mapping reports the level, and unmapping is not implemented. */
  function TableAnswer(nodes: CNodes, root: Cap, c: Cap, inv: Label, args: Args, ts: Tables): (r: Result<Option<nat>>)
    requires Wf(nodes) && root.ctype.CNode? && Sound(nodes, root) && Shape(ts)
  {
    match inv
    case PageTableMap =>
      if args.a5 % PAGE_SIZE != 0 then Err(NotAligned, PAGE_SIZE)
      else (
        match TableNamed(nodes, root, args)
        case Err(k, d) => Err(k, d)
        case Halt => Halt
        case Ok(t) => if IsMapped(c.word) then Err(PageTableAlreadyMapped, 0) else Levelled(AddressSpaces.LinkAnswer(ts, t, Indices(args.a5))))
    case PageTableMakeRoot => if IsMapped(c.word) then Err(PageTableAlreadyMapped, 0) else if c.addr !in ts then Halt else Ok(None)
    case PageTableUnMap => Halt
    case _ => Err(UnknownInvocation, 0)
  }

  function Levelled(r: Result<nat>): (l: Result<Option<nat>>)
  {
    match r
    case Ok(n) => Ok(Some(n))
    case Err(k, d) => Err(k, d)
    case Halt => Halt
  }

  /** Mapping a page is granted exactly at an aligned address, through a table that is found, for a page that says it is
      mapped nowhere, where all tables are in place and nothing is bound; unmapping exactly where the page
      remembers to be mapped and is; mapping a table exactly if one is missing there. */
  lemma {:induction false} MemoryGranted(nodes: CNodes, root: Cap, c: Cap, args: Args, ts: Tables)
    requires Wf(nodes) && root.ctype.CNode? && Sound(nodes, root) && Shape(ts)
    ensures var t, ix := TableNamed(nodes, root, args), Indices(args.a5);
            && (PageAnswer(nodes, root, c, PageMap, args, ts).Ok? <==>
                  args.a5 % PAGE_SIZE == 0 && t.Ok? && !IsMapped(c.word) && TableAt(ts, t.value, ix, 0).Some? && Lookup(ts, t.value, ix).None?)
            && (TableAnswer(nodes, root, c, PageTableMap, args, ts).Ok? <==>
                  args.a5 % PAGE_SIZE == 0 && t.Ok? && !IsMapped(c.word) && !AddressSpaces.Dangles(ts, t.value, ix) && TableAt(ts, t.value, ix, 0).None?)
    ensures var t, at := TableNamed(nodes, root, args), Indices(MappedAddress(c.word));
            PageAnswer(nodes, root, c, PageUnMap, args, ts).Ok? <==>
            t.Ok? && IsMapped(c.word) && Lookup(ts, t.value, at).Some? && Lookup(ts, t.value, at).value.addr == c.addr
  {
    var t := TableNamed(nodes, root, args);
    if t.Ok? {
      AddressSpaces.GrantedWhere(ts, t.value, Indices(args.a5), c.addr);
      AddressSpaces.GrantedWhere(ts, t.value, Indices(MappedAddress(c.word)), c.addr);
    }
  }

  /** Why it is refused otherwise: an address that is not aligned, before anything is looked up; a table that is not found;
      what the capability says of itself; a missing or taken entry.  Unmapping a table stops the kernel, and other
      labels are not understood. */
  lemma {:induction false} MemoryRefused(nodes: CNodes, root: Cap, c: Cap, inv: Label, args: Args, ts: Tables)
    requires Wf(nodes) && root.ctype.CNode? && Sound(nodes, root) && Shape(ts)
    ensures args.a5 % PAGE_SIZE != 0 ==>
              && PageAnswer(nodes, root, c, PageMap, args, ts) == Err(NotAligned, PAGE_SIZE)
              && TableAnswer(nodes, root, c, PageTableMap, args, ts) == Err(NotAligned, PAGE_SIZE)
    ensures var t := TableNamed(nodes, root, args);
            args.a5 % PAGE_SIZE == 0 && !t.Ok? ==>
              PageAnswer(nodes, root, c, PageMap, args, ts) == Fail(t) && TableAnswer(nodes, root, c, PageTableMap, args, ts) == Fail(t)
    ensures var t := TableNamed(nodes, root, args);
            && (args.a5 % PAGE_SIZE == 0 && t.Ok? && IsMapped(c.word) ==>
                  && PageAnswer(nodes, root, c, PageMap, args, ts) == Err(PageAlreadyMapped, 0)
                  && TableAnswer(nodes, root, c, PageTableMap, args, ts) == Err(PageTableAlreadyMapped, 0))
            && (t.Ok? && !IsMapped(c.word) ==> PageAnswer(nodes, root, c, PageUnMap, args, ts) == Err(PageNotMappedYet, 0))
    ensures IsMapped(c.word) ==> TableAnswer(nodes, root, c, PageTableMakeRoot, args, ts) == Err(PageTableAlreadyMapped, 0)
    ensures TableAnswer(nodes, root, c, PageTableUnMap, args, ts) == Halt
    ensures !inv.PageMap? && !inv.PageUnMap? ==> PageAnswer(nodes, root, c, inv, args, ts) == Err(UnknownInvocation, 0)
    ensures !inv.PageTableMap? && !inv.PageTableMakeRoot? && !inv.PageTableUnMap? ==> TableAnswer(nodes, root, c, inv, args, ts) == Err(UnknownInvocation, 0)
  {
  }

  /** The tables after an invocation of the page c, for whatever table is named. */
  ghost predicate PageEffect(nodes: CNodes, root: Cap, c: Cap, inv: Label, args: Args, ts: Tables, ts': Tables)
    requires Wf(nodes) && root.ctype.CNode? && Sound(nodes, root) && Shape(ts)
  {
    && TableNamed(nodes, root, args).Ok?
    && var table := TableNamed(nodes, root, args).value;
    if inv.PageMap? then AddressSpaces.PageMapped(ts, table, PagePath(c, inv, args), PageStored(c, inv, args), ts')
    else AddressSpaces.PageUnmapped(ts, table, PagePath(c, inv, args), c.addr, ts')
  }

  lemma {:induction false} MappedEffect(nodes: CNodes, root: Cap, c: Cap, table: nat, args: Args, ts: Tables, ts': Tables)
    requires Wf(nodes) && root.ctype.CNode? && Sound(nodes, root) && Shape(ts) && TableNamed(nodes, root, args) == Ok(table)
    requires AddressSpaces.PageMapped(ts, table, Indices(args.a5), PageEntry(c.addr, PAGE_U + UserFlags(args.a6)), ts')
    ensures PageEffect(nodes, root, c, PageMap, args, ts, ts')
  {
  }

  /** The entry that is stored. */
  function PageStored(c: Cap, inv: Label, args: Args): (e: Pte)
    ensures e.Valid() || e == EMPTY
  {
    if inv.PageMap? then PageEntry(c.addr, PAGE_U + UserFlags(args.a6)) else EMPTY
  }

  /** The tables after an invocation of the page table c. */
  ghost predicate TableEffect(nodes: CNodes, root: Cap, c: Cap, inv: Label, args: Args, ts: Tables, lv: map<nat, nat>, kr: seq<Pte>,
                              ts': Tables, lv': map<nat, nat>)
    requires Wf(nodes) && root.ctype.CNode? && Sound(nodes, root) && Shape(ts) && |kr| == 512
  {
    if inv.PageTableMap? then
      && TableNamed(nodes, root, args).Ok?
      && AddressSpaces.TableMapped(ts, lv, TableNamed(nodes, root, args).value, Indices(args.a5), c.addr, ts', lv')
    else
      c.addr in ts && ts' == ts[c.addr := kr] && lv' == RootLevels(ts, lv, kr, c.addr)
  }

  /** The tables after an invocation of the capability in `slot`. */
  ghost predicate SpaceEffect(nodes: CNodes, root: Cap, slot: Place, inv: Label, args: Args, tcbSize: nat,
                              ts: Tables, lv: map<nat, nat>, kr: seq<Pte>, ts': Tables, lv': map<nat, nat>)
    requires CapsOk(nodes) && root.ctype.CNode? && Sound(nodes, root) && IsFull(nodes, slot) && tcbSize % 8 == 0
    requires Shape(ts) && |kr| == 512
  {
    var c := SlotAt(nodes, slot).cap;
    assert UntypedOk(c);
    match c.ctype
    case Page => lv' == lv && PageEffect(nodes, root, c, inv, args, ts, ts')
    case PageTable => TableEffect(nodes, root, c, inv, args, ts, lv, kr, ts', lv')
    case Untyped =>
      && lv' == lv && MakePlan(nodes, root, c, args, tcbSize).Ok?
      && var m := MakePlan(nodes, root, c, args, tcbSize).value;
      ts' == if m.kind.PageTable? then WithTables(ts, m, m.num) else ts
    case _ => ts' == ts && lv' == lv
  }

  /** The entry written is in no tree or in a table of level 0. */
  ghost predicate LeafPlace(ts: Tables, lv: map<nat, nat>, table: nat, ix: seq<nat>)
    requires Shape(ts) && IsPath(ix)
  {
    match TableAt(ts, table, ix, 0)
    case None => true
    case Some(p) => p !in lv || lv[p] == 0
  }

  /** The entry written is outside the tree or of level 0, or a user entry for a zero table that hangs
      nowhere. */
  ghost predicate LinkPlace(ts: Tables, lv: map<nat, nat>, table: nat, ix: seq<nat>, t: nat)
    requires Shape(ts) && IsPath(ix)
  {
    var l := AddressSpaces.Reached(ts, table, ix);
    match TableAt(ts, table, ix, l)
    case None => true
    case Some(p) => p !in lv || lv[p] == 0 || ForTable(ts, lv, p, ix[l], t)
  }

  /** The calls that leave a tree of tables, none of which the kernel checks for: pages go into tables of
      level 0, tables that are linked are zero and hang nowhere, what becomes a root does not hang below
      one, and memory that becomes a table hangs nowhere. */
  ghost predicate Orderly(nodes: CNodes, root: Cap, slot: Place, inv: Label, args: Args, tcbSize: nat, ts: Tables, lv: map<nat, nat>)
    requires CapsOk(nodes) && root.ctype.CNode? && Sound(nodes, root) && IsFull(nodes, slot) && tcbSize % 8 == 0 && Shape(ts)
  {
    var c := SlotAt(nodes, slot).cap;
    assert UntypedOk(c);
    match c.ctype
    case Page => TableNamed(nodes, root, args).Ok? ==> LeafPlace(ts, lv, TableNamed(nodes, root, args).value, PagePath(c, inv, args))
    case PageTable =>
      if inv.PageTableMap? then TableNamed(nodes, root, args).Ok? ==> LinkPlace(ts, lv, TableNamed(nodes, root, args).value, Indices(args.a5), c.addr)
      else c.addr in lv ==> lv[c.addr] == 3
    case Untyped =>
      MakePlan(nodes, root, c, args, tcbSize).Ok? && MakePlan(nodes, root, c, args, tcbSize).value.kind.PageTable? ==>
        OutsideSpaces(lv, MakePlan(nodes, root, c, args, tcbSize).value, Lo(args.a5))
    case _ => true
  }

  /** They do leave a tree. */
  lemma {:induction false} OrderlyStands(nodes: CNodes, root: Cap, slot: Place, inv: Label, args: Args, tcbSize: nat,
                                         ts: Tables, lv: map<nat, nat>, kr: seq<Pte>, ts': Tables, lv': map<nat, nat>)
    requires CapsOk(nodes) && root.ctype.CNode? && Sound(nodes, root) && IsFull(nodes, slot) && tcbSize % 8 == 0
    requires Standing(ts, lv, kr) && forall i :: 0 <= i < 256 ==> kr[i] == EMPTY
    requires SpaceEffect(nodes, root, slot, inv, args, tcbSize, ts, lv, kr, ts', lv') && Orderly(nodes, root, slot, inv, args, tcbSize, ts, lv)
    ensures Standing(ts', lv', kr)
  {
    var c := SlotAt(nodes, slot).cap;
    match c.ctype
    case Page => PageStands(nodes, root, c, inv, args, ts, lv, kr, ts');
    case PageTable => TableStands(nodes, root, c, inv, args, ts, lv, kr, ts', lv');
    case Untyped =>
      assert UntypedOk(c);
      var m := MakePlan(nodes, root, c, args, tcbSize).value;
      if m.kind.PageTable? {
        NewTablesStand(ts, lv, kr, m, m.num);
      }
    case _ =>
  }

  lemma {:induction false} PageStands(nodes: CNodes, root: Cap, c: Cap, inv: Label, args: Args, ts: Tables, lv: map<nat, nat>, kr: seq<Pte>, ts': Tables)
    requires Wf(nodes) && root.ctype.CNode? && Sound(nodes, root) && Standing(ts, lv, kr)
    requires PageEffect(nodes, root, c, inv, args, ts, ts')
    requires LeafPlace(ts, lv, TableNamed(nodes, root, args).value, PagePath(c, inv, args))
    ensures Standing(ts', lv, kr)
  {
    var ix := PagePath(c, inv, args);
    LeafEffectHolds(ts, lv, kr, TableAt(ts, TableNamed(nodes, root, args).value, ix, 0).value, ix[0], PageStored(c, inv, args));
  }

  lemma {:induction false} TableStands(nodes: CNodes, root: Cap, c: Cap, inv: Label, args: Args, ts: Tables, lv: map<nat, nat>, kr: seq<Pte>,
                                       ts': Tables, lv': map<nat, nat>)
    requires Wf(nodes) && root.ctype.CNode? && Sound(nodes, root) && Standing(ts, lv, kr) && forall i :: 0 <= i < 256 ==> kr[i] == EMPTY
    requires TableEffect(nodes, root, c, inv, args, ts, lv, kr, ts', lv')
    requires if inv.PageTableMap? then LinkPlace(ts, lv, TableNamed(nodes, root, args).value, Indices(args.a5), c.addr)
             else c.addr in lv ==> lv[c.addr] == 3
    ensures Standing(ts', lv', kr)
  {
    if inv.PageTableMap? {
      LinkStands(ts, lv, kr, TableNamed(nodes, root, args).value, Indices(args.a5), c.addr, ts', lv');
    } else {
      RootEffectHolds(ts, lv, kr, c.addr);
    }
  }

  lemma {:induction false} LinkStands(ts: Tables, lv: map<nat, nat>, kr: seq<Pte>, table: nat, ix: seq<nat>, t: nat, ts': Tables, lv': map<nat, nat>)
    requires Standing(ts, lv, kr) && IsPath(ix) && AddressSpaces.TableMapped(ts, lv, table, ix, t, ts', lv') && LinkPlace(ts, lv, table, ix, t)
    ensures Standing(ts', lv', kr) && SameRoots(lv, lv')
  {
    var l := AddressSpaces.Reached(ts, table, ix);
    LinkEffectHolds(ts, lv, kr, TableAt(ts, table, ix, l).value, ix[l], t);
  }

  /** For mapping pages and tables and making roots the condition is exact: no other call leaves a tree. */
  lemma {:induction false} OrderlyExactly(nodes: CNodes, root: Cap, slot: Place, inv: Label, args: Args, tcbSize: nat,
                                          ts: Tables, lv: map<nat, nat>, kr: seq<Pte>, ts': Tables, lv': map<nat, nat>)
    requires CapsOk(nodes) && root.ctype.CNode? && Sound(nodes, root) && IsFull(nodes, slot) && tcbSize % 8 == 0
    requires Standing(ts, lv, kr) && forall i :: 0 <= i < 256 ==> kr[i] == EMPTY
    requires SpaceEffect(nodes, root, slot, inv, args, tcbSize, ts, lv, kr, ts', lv')
    ensures var c := SlotAt(nodes, slot).cap;
            && (c.ctype.Page? && inv.PageMap? ==>
                  (SomeTree(ts', lv, kr) <==> Orderly(nodes, root, slot, inv, args, tcbSize, ts, lv)))
            && (c.ctype.PageTable? && inv.PageTableMap? && (c.addr in ts ==> Zeroed(ts[c.addr])) ==>
                  (SomeTree(ts', lv, kr) <==> Orderly(nodes, root, slot, inv, args, tcbSize, ts, lv)))
            && (c.ctype.PageTable? && !inv.PageTableMap? ==>
                  (SomeTree(ts', lv[c.addr := 3], kr) <==> Orderly(nodes, root, slot, inv, args, tcbSize, ts, lv)))
  {
    var c := SlotAt(nodes, slot).cap;
    if c.ctype.Page? && inv.PageMap? {
      var ix := PagePath(c, inv, args);
      PageKeepsTreeExactly(ts, lv, kr, TableAt(ts, TableNamed(nodes, root, args).value, ix, 0).value, ix[0], PageStored(c, inv, args));
    } else if c.ctype.PageTable? && inv.PageTableMap? && (c.addr in ts ==> Zeroed(ts[c.addr])) {
      LinkExactly(ts, lv, kr, TableNamed(nodes, root, args).value, Indices(args.a5), c.addr, ts', lv');
    } else if c.ctype.PageTable? && !inv.PageTableMap? {
      RootKeepsTreeExactly(ts, lv, kr, c.addr);
    }
  }

  lemma {:induction false} LinkExactly(ts: Tables, lv: map<nat, nat>, kr: seq<Pte>, table: nat, ix: seq<nat>, t: nat, ts': Tables, lv': map<nat, nat>)
    requires Standing(ts, lv, kr) && IsPath(ix) && AddressSpaces.TableMapped(ts, lv, table, ix, t, ts', lv')
    requires t in ts ==> Zeroed(ts[t])
    ensures SomeTree(ts', lv, kr) <==> LinkPlace(ts, lv, table, ix, t)
  {
    var l := AddressSpaces.Reached(ts, table, ix);
    if LinkPlace(ts, lv, table, ix, t) {
      LinkStands(ts, lv, kr, table, ix, t, ts', lv');
      ATree(ts', lv, kr, lv');
    } else {
      BadLink(ts, lv, kr, TableAt(ts, table, ix, l).value, ix[l], t);
    }
  }

  /** What an invocation does to the bindings of all address spaces. */
  ghost predicate BindingEffect(nodes: CNodes, root: Cap, slot: Place, inv: Label, args: Args, tcbSize: nat,
                                ts: Tables, lv: map<nat, nat>, kr: seq<Pte>, ts': Tables, lv': map<nat, nat>)
    requires CapsOk(nodes) && root.ctype.CNode? && Sound(nodes, root) && IsFull(nodes, slot) && tcbSize % 8 == 0
    requires Shape(ts) && |kr| == 512 && Shape(ts')
    requires SpaceEffect(nodes, root, slot, inv, args, tcbSize, ts, lv, kr, ts', lv')
  {
    var c := SlotAt(nodes, slot).cap;
    assert UntypedOk(c);
    match c.ctype
    case Page => AddressSpaces.StoredAt(ts, lv, kr, TableNamed(nodes, root, args).value, PagePath(c, inv, args), PageStored(c, inv, args))
    case PageTable =>
      if inv.PageTableMap? then AddressSpaces.LinkedAt(ts, lv, kr, TableNamed(nodes, root, args).value, Indices(args.a5), c.addr)
      else RootEffect(ts, lv, kr, c.addr)
    case Untyped =>
      OutsideSpaces(lv, MakePlan(nodes, root, c, args, tcbSize).value, Lo(args.a5)) ==> Bindings(ts', lv') == Bindings(ts, lv)
    case _ => Bindings(ts', lv') == Bindings(ts, lv)
  }

  lemma {:induction false} BindingEffectHolds(nodes: CNodes, root: Cap, slot: Place, inv: Label, args: Args, tcbSize: nat,
                                              ts: Tables, lv: map<nat, nat>, kr: seq<Pte>, ts': Tables, lv': map<nat, nat>)
    requires CapsOk(nodes) && root.ctype.CNode? && Sound(nodes, root) && IsFull(nodes, slot) && tcbSize % 8 == 0
    requires Standing(ts, lv, kr) && (forall i :: 0 <= i < 256 ==> kr[i] == EMPTY) && Shape(ts')
    requires SpaceEffect(nodes, root, slot, inv, args, tcbSize, ts, lv, kr, ts', lv')
    ensures BindingEffect(nodes, root, slot, inv, args, tcbSize, ts, lv, kr, ts', lv')
  {
    var c := SlotAt(nodes, slot).cap;
    match c.ctype
    case Page =>
      var ix := PagePath(c, inv, args);
      LeafEffectHolds(ts, lv, kr, TableAt(ts, TableNamed(nodes, root, args).value, ix, 0).value, ix[0], PageStored(c, inv, args));
    case PageTable =>
      if inv.PageTableMap? {
        var table, ix := TableNamed(nodes, root, args).value, Indices(args.a5);
        var l := AddressSpaces.Reached(ts, table, ix);
        LinkEffectHolds(ts, lv, kr, TableAt(ts, table, ix, l).value, ix[l], c.addr);
      } else {
        RootEffectHolds(ts, lv, kr, c.addr);
      }
    case Untyped =>
      assert UntypedOk(c);
      var m := MakePlan(nodes, root, c, args, tcbSize).value;
      if m.kind.PageTable? && OutsideSpaces(lv, m, m.num) {
        NewTablesStand(ts, lv, kr, m, m.num);
      }
    case _ =>
  }

  // ---------------------------------------------------------------- what an invocation does to threads' configurations

  /** The configurations after an invocation of the thread t. */
  ghost predicate ThreadEffect(nodes: CNodes, root: Cap, t: nat, inv: Label, args: Args, buffer: Option<seq<nat>>,
                               configs: map<nat, Config>, configs': map<nat, Config>)
    requires Wf(nodes) && root.ctype.CNode? && Sound(nodes, root) && (buffer.Some? ==> |buffer.value| == MESSAGE_LEN)
  {
    && t in configs
    && match inv
       case TcbConfigure =>
         && CanConfigure(nodes, root, args) && configs[t].cspace.None? && configs[t].vspace.None?
         && configs' == configs[t := configs[t].(
              cspace := Some(SlotAt(nodes, FindTyped(nodes, root, args.a3, Lo(args.a4), CNode).value).cap),
              vspace := Some(SlotAt(nodes, FindTyped(nodes, root, args.a5, Lo(args.a6), PageTable).value).cap))]
       case TcbSetIpcBuffer =>
         && FindTyped(nodes, root, args.a3, Lo(args.a4), Page).Ok?
         && var page := SlotAt(nodes, FindTyped(nodes, root, args.a3, Lo(args.a4), Page).value).cap;
         && IsMapped(page.word) && configs[t].ipc.None?
         && configs' == configs[t := configs[t].(ipc := Some(page.(word := 0)))]
       case TcbWriteReg => buffer.Some? && configs' == configs[t := configs[t].(regs := buffer.value[..REGISTERS])]
       case TcbResume => configs' == configs
       case _ => false
  }

  /** Two slots of the right types, which therefore are different slots. */
  predicate CanConfigure(nodes: CNodes, root: Cap, args: Args)
    requires Wf(nodes) && root.ctype.CNode? && Sound(nodes, root)
  {
    FindTyped(nodes, root, args.a3, Lo(args.a4), CNode).Ok? && FindTyped(nodes, root, args.a5, Lo(args.a6), PageTable).Ok?
  }

  /** Both lookups end without stopping the kernel; the second is made only if the first finds a slot. */
  predicate Looked(nodes: CNodes, root: Cap, args: Args)
    requires Wf(nodes) && root.ctype.CNode? && Sound(nodes, root)
  {
    !Find(nodes, root, args.a3, Lo(args.a4)).Halt? &&
    (Find(nodes, root, args.a3, Lo(args.a4)).Ok? ==> !Find(nodes, root, args.a5, Lo(args.a6)).Halt?)
  }

  /** The configurations after an invocation of the capability in `slot`. */
  ghost predicate ConfigEffect(nodes: CNodes, root: Cap, slot: Place, inv: Label, args: Args, buffer: Option<seq<nat>>, tcbSize: nat,
                               configs: map<nat, Config>, configs': map<nat, Config>)
    requires CapsOk(nodes) && root.ctype.CNode? && Sound(nodes, root) && IsFull(nodes, slot) && tcbSize % 8 == 0
    requires buffer.Some? ==> |buffer.value| == MESSAGE_LEN
  {
    var c := SlotAt(nodes, slot).cap;
    assert UntypedOk(c);
    match c.ctype
    case Tcb => ThreadEffect(nodes, root, c.addr, inv, args, buffer, configs, configs')
    case Untyped =>
      && MakePlan(nodes, root, c, args, tcbSize).Ok?
      && var m := MakePlan(nodes, root, c, args, tcbSize).value;
      configs' == if m.kind.Tcb? then WithThreads(configs, m, m.num) else configs
    case _ => configs' == configs
  }

  // ---------------------------------------------------------------- what an invocation does

  /** What invocations change. */
  datatype World = World(nodes: CNodes, configs: map<nat, Config>, tables: Tables, level: map<nat, nat>)

  ghost predicate WorldOk(w: World) { CapsOk(w.nodes) && ThreadsKnown(w.nodes, w.configs) && Shape(w.tables) }

  /** An invocation of the capability in `slot`, by a thread with the root CNode `root` and the message
      `buffer`, if it has one; depth is what its a1 holds and kr the kernel's root table. */
  datatype Call = Call(root: Cap, slot: Place, depth: nat, inv: Label, args: Args, buffer: Option<seq<nat>>, tcbSize: nat, kr: seq<Pte>)

  ghost predicate CallOk(w: World, c: Call)
  {
    && WorldOk(w) && c.root.ctype.CNode? && Sound(w.nodes, c.root) && IsFull(w.nodes, c.slot) && c.tcbSize % 8 == 0 && |c.kr| == 512
    && (c.buffer.Some? ==> |c.buffer.value| == MESSAGE_LEN)
  }

  /** The slots after an invocation of the capability in `slot`. */
  ghost predicate SlotEffect(nodes: CNodes, root: Cap, slot: Place, inv: Label, args: Args, tcbSize: nat, nodes': CNodes)
    requires CapsOk(nodes) && root.ctype.CNode? && Sound(nodes, root) && IsFull(nodes, slot) && tcbSize % 8 == 0
  {
    var c := SlotAt(nodes, slot).cap;
    assert UntypedOk(c) && Sound(nodes, c);
    match c.ctype
    case Untyped => MakePlan(nodes, root, c, args, tcbSize).Ok? && nodes' == Retyped(nodes, slot, MakePlan(nodes, root, c, args, tcbSize).value)
    case CNode => CopyPlan(nodes, root, c, inv, args).Ok? && nodes' == Copied(nodes, inv, CopyPlan(nodes, root, c, inv, args).value)
    case Page => nodes' == Put(nodes, slot, Full(c.(word := PageWord(c, inv, args))))
    case PageTable => nodes' == Put(nodes, slot, Full(c.(word := TableWord(c, inv, args))))
    case _ => nodes' == nodes
  }

  /** A successful invocation: slots, configurations and tables change as the kind of the capability says,
      and slots are conserved. */
  ghost predicate Succeeded(w: World, c: Call, w': World)
    requires CallOk(w, c)
  {
    && SlotEffect(w.nodes, c.root, c.slot, c.inv, c.args, c.tcbSize, w'.nodes)
    && Conserved(w.nodes, w'.nodes, c.root, c.slot, c.inv, c.args)
    && ConfigEffect(w.nodes, c.root, c.slot, c.inv, c.args, c.buffer, c.tcbSize, w.configs, w'.configs)
    && SpaceEffect(w.nodes, c.root, c.slot, c.inv, c.args, c.tcbSize, w.tables, w.level, c.kr, w'.tables, w'.level)
  }

  ghost predicate IsTame(w: World, c: Call)
    requires CallOk(w, c)
  {
    Tame(w.nodes, c.root, c.slot, c.inv, c.args, c.tcbSize)
  }

  ghost predicate IsOrderly(w: World, c: Call)
    requires CallOk(w, c)
  {
    Orderly(w.nodes, c.root, c.slot, c.inv, c.args, c.tcbSize, w.tables, w.level)
  }

  /** Address spaces are trees, below roots whose user half starts empty. */
  ghost predicate SpacesOk(w: World, kr: seq<Pte>)
  {
    Standing(w.tables, w.level, kr) && forall i :: 0 <= i < 256 ==> kr[i] == EMPTY
  }

  /** What becomes of the bindings. */
  ghost predicate Rebound(w: World, c: Call, w': World)
    requires CallOk(w, c)
  {
    && Shape(w'.tables)
    && SpaceEffect(w.nodes, c.root, c.slot, c.inv, c.args, c.tcbSize, w.tables, w.level, c.kr, w'.tables, w'.level)
    && BindingEffect(w.nodes, c.root, c.slot, c.inv, c.args, c.tcbSize, w.tables, w.level, c.kr, w'.tables, w'.level)
  }

  /** The caller is told e, or why not. */
  function Reply<T>(p: Result<T>, e: Threads.Event): (r: Result<Threads.Event>)
  {
    match p
    case Ok(_) => Ok(e)
    case Err(k, d) => Err(k, d)
    case Halt => Halt
  }

  /** A capability of type t is in the slot. */
  function Holds(s: Slot, t: CapType): (r: Result<()>)
  {
    if s.Empty? then Err(SlotIsEmpty, 0) else if s.cap.ctype != t then Err(UnexpectedCapType, 0) else Ok(())
  }

  /** What configuring a thread gives: two lookups that must end at different slots, which are looked at in turn; what has
      been configured before stops the kernel. */
  function ConfigureAnswer(nodes: CNodes, root: Cap, args: Args, config: Config): (r: Result<()>)
    requires Wf(nodes) && root.ctype.CNode? && Sound(nodes, root)
  {
    match Find(nodes, root, args.a3, Lo(args.a4))
    case Err(k, d) => Err(k, d)
    case Halt => Halt
    case Ok(p) =>
      match Find(nodes, root, args.a5, Lo(args.a6))
      case Err(k, d) => Err(k, d)
      case Halt => Halt
      case Ok(q) =>
        if p == q then Err(InvalidOperation, 0)
        else if !Holds(SlotAt(nodes, p), CNode).Ok? then Holds(SlotAt(nodes, p), CNode)
        else if !Holds(SlotAt(nodes, q), PageTable).Ok? then Holds(SlotAt(nodes, q), PageTable)
        else if config.cspace.Some? || config.vspace.Some? then Halt
        else Ok(())
  }

  /** What giving a thread an IPC buffer gives. */
  function BufferAnswer(nodes: CNodes, root: Cap, args: Args, config: Config): (r: Result<()>)
    requires Wf(nodes) && root.ctype.CNode? && Sound(nodes, root)
  {
    match FindTyped(nodes, root, args.a3, Lo(args.a4), Page)
    case Err(k, d) => Err(k, d)
    case Halt => Halt
    case Ok(p) => if !IsMapped(SlotAt(nodes, p).cap.word) then Err(PageTableNotMappedYet, 0) else if config.ipc.Some? then Halt else Ok(())
  }

  /** What invoking a thread gives. */
  function ThreadAnswer(nodes: CNodes, root: Cap, inv: Label, args: Args, buffer: Option<seq<nat>>, config: Config): (r: Result<()>)
    requires Wf(nodes) && root.ctype.CNode? && Sound(nodes, root)
  {
    match inv
    case TcbConfigure => ConfigureAnswer(nodes, root, args, config)
    case TcbSetIpcBuffer => BufferAnswer(nodes, root, args, config)
    case TcbWriteReg => if buffer.None? then Err(InvalidOperation, 0) else Ok(())
    case TcbResume => Ok(())
    case _ => Err(UnknownInvocation, 0)
  }

  /** Configuring is granted exactly if a CNode and a table are found and nothing has been configured, giving an IPC buffer
      exactly if a mapped page is found and there is none yet, writing registers exactly if the caller has a message,
      resuming always; other labels are not understood. */
  lemma {:induction false} ThreadGranted(nodes: CNodes, root: Cap, inv: Label, args: Args, buffer: Option<seq<nat>>, config: Config)
    requires Wf(nodes) && root.ctype.CNode? && Sound(nodes, root)
    ensures !inv.TcbConfigure? && !inv.TcbSetIpcBuffer? && !inv.TcbWriteReg? && !inv.TcbResume? ==>
              ThreadAnswer(nodes, root, inv, args, buffer, config) == Err(UnknownInvocation, 0)
    ensures inv.TcbWriteReg? ==> ThreadAnswer(nodes, root, inv, args, buffer, config) == if buffer.None? then Err(InvalidOperation, 0) else Ok(())
    ensures inv.TcbResume? ==> ThreadAnswer(nodes, root, inv, args, buffer, config).Ok?
    ensures ConfigureAnswer(nodes, root, args, config).Ok? <==>
            CanConfigure(nodes, root, args) && config.cspace.None? && config.vspace.None?
    ensures var p := FindTyped(nodes, root, args.a3, Lo(args.a4), Page);
            BufferAnswer(nodes, root, args, config).Ok? <==> p.Ok? && IsMapped(SlotAt(nodes, p.value).cap.word) && config.ipc.None?
  {
  }

  /** What is answered.  Success leaves 0 and what was in a1, or the level of a table that was linked. */
  ghost predicate Answers(w: World, c: Call, r: Result<Threads.Event>)
    requires CallOk(w, c)
  {
    var cap := SlotAt(w.nodes, c.slot).cap;
    assert UntypedOk(cap) && Sound(w.nodes, cap);
    match cap.ctype
    case Untyped => r == Reply(MakePlan(w.nodes, c.root, cap, c.args, c.tcbSize), Threads.Other(0, c.depth))
    case CNode => r == Reply(CopyPlan(w.nodes, c.root, cap, c.inv, c.args), Threads.Other(0, c.depth))
    case Page => r == Reply(PageAnswer(w.nodes, c.root, cap, c.inv, c.args, w.tables), Threads.Other(0, c.depth))
    case PageTable =>
      var a := TableAnswer(w.nodes, c.root, cap, c.inv, c.args, w.tables);
      r == Reply(a, Threads.Other(0, if a.Ok? && a.value.Some? then a.value.value else c.depth))
    case Tcb =>
      r == Reply(ThreadAnswer(w.nodes, c.root, c.inv, c.args, c.buffer, w.configs[cap.addr]),
                 if c.inv.TcbResume? then Threads.Resume(cap.addr) else Threads.Other(0, c.depth))
    case _ => r == Ipc(cap, c.inv)
  }

  /** Every outcome of an invocation: it is answered as its kind says; failing changes nothing; success has the
      effects of its kind, on bindings too if address spaces were trees, and keeps capabilities sound if the
      call is tame and address spaces trees if it is orderly. */
  ghost predicate Outcome(w: World, c: Call, r: Result<Threads.Event>, w': World)
    requires CallOk(w, c)
  {
    && (!r.Ok? ==> w' == w)
    && (r.Ok? ==> Succeeded(w, c, w'))
    && (r.Ok? && IsTame(w, c) ==> WorldOk(w') && Sound(w'.nodes, c.root))
    && (r.Ok? && SpacesOk(w, c.kr) ==> Rebound(w, c, w'))
    && (r.Ok? && SpacesOk(w, c.kr) && IsOrderly(w, c) ==> SpacesOk(w', c.kr))
    && Answers(w, c, r)
  }

  lemma {:induction false} OrderlyOutcome(w: World, c: Call, w': World)
    requires CallOk(w, c) && Succeeded(w, c, w')
    ensures SpacesOk(w, c.kr) && IsOrderly(w, c) ==> SpacesOk(w', c.kr)
  {
    if SpacesOk(w, c.kr) && IsOrderly(w, c) {
      OrderlyStands(w.nodes, c.root, c.slot, c.inv, c.args, c.tcbSize, w.tables, w.level, c.kr, w'.tables, w'.level);
    }
  }

  lemma {:induction false} ReboundHolds(w: World, c: Call, w': World)
    requires CallOk(w, c) && Succeeded(w, c, w') && SpacesOk(w, c.kr) && Shape(w'.tables)
    ensures Rebound(w, c, w')
  {
    BindingEffectHolds(w.nodes, c.root, c.slot, c.inv, c.args, c.tcbSize, w.tables, w.level, c.kr, w'.tables, w'.level);
  }

  lemma {:induction false} Success(w: World, c: Call, w': World, e: Threads.Event)
    requires CallOk(w, c) && Succeeded(w, c, w') && (IsTame(w, c) ==> WorldOk(w') && Sound(w'.nodes, c.root)) && Shape(w'.tables)
    requires Answers(w, c, Ok(e))
    ensures Outcome(w, c, Ok(e), w')
  {
    OrderlyOutcome(w, c, w');
    if SpacesOk(w, c.kr) {
      ReboundHolds(w, c, w');
    }
  }

  lemma {:induction false} RetypeOutcome(w: World, c: Call, w': World, e: Threads.Event)
    requires CallOk(w, c) && SlotAt(w.nodes, c.slot).cap.ctype.Untyped? && UntypedOk(SlotAt(w.nodes, c.slot).cap)
    requires MakePlan(w.nodes, c.root, SlotAt(w.nodes, c.slot).cap, c.args, c.tcbSize).Ok?
    requires var m := MakePlan(w.nodes, c.root, SlotAt(w.nodes, c.slot).cap, c.args, c.tcbSize).value;
             w' == World(Retyped(w.nodes, c.slot, m), if m.kind.Tcb? then WithThreads(w.configs, m, m.num) else w.configs,
                         if m.kind.PageTable? then WithTables(w.tables, m, m.num) else w.tables, w.level)
    requires e == Threads.Other(0, c.depth)
    ensures Outcome(w, c, Ok(e), w')
  {
    RetypeConserved(w.nodes, c.root, c.slot, c.inv, c.args, c.tcbSize);
    RetypeTame(w.nodes, c.root, c.slot, c.inv, c.args, c.tcbSize);
    RetypedKnown(w.nodes, c.slot, MakePlan(w.nodes, c.root, SlotAt(w.nodes, c.slot).cap, c.args, c.tcbSize).value, w.configs);
    Success(w, c, w', e);
  }

  lemma {:induction false} CopyOutcome(w: World, c: Call, w': World, e: Threads.Event)
    requires CallOk(w, c) && SlotAt(w.nodes, c.slot).cap.ctype.CNode? && Sound(w.nodes, SlotAt(w.nodes, c.slot).cap)
    requires CopyPlan(w.nodes, c.root, SlotAt(w.nodes, c.slot).cap, c.inv, c.args).Ok?
    requires w' == w.(nodes := Copied(w.nodes, c.inv, CopyPlan(w.nodes, c.root, SlotAt(w.nodes, c.slot).cap, c.inv, c.args).value))
    requires e == Threads.Other(0, c.depth)
    ensures Outcome(w, c, Ok(e), w')
  {
    CopyConserved(w.nodes, c.root, c.slot, c.inv, c.args);
    CopyTame(w.nodes, c.root, c.slot, c.inv, c.args, c.tcbSize);
    CopiedKnown(w.nodes, c.inv, CopyPlan(w.nodes, c.root, SlotAt(w.nodes, c.slot).cap, c.inv, c.args).value, w.configs);
    Success(w, c, w', e);
  }

  lemma {:induction false} MemoryOutcome(w: World, c: Call, w': World, e: Threads.Event)
    requires CallOk(w, c) && (SlotAt(w.nodes, c.slot).cap.ctype.Page? || SlotAt(w.nodes, c.slot).cap.ctype.PageTable?)
    requires SlotEffect(w.nodes, c.root, c.slot, c.inv, c.args, c.tcbSize, w'.nodes) && w'.configs == w.configs && Shape(w'.tables)
    requires SpaceEffect(w.nodes, c.root, c.slot, c.inv, c.args, c.tcbSize, w.tables, w.level, c.kr, w'.tables, w'.level)
    requires Answers(w, c, Ok(e))
    ensures Outcome(w, c, Ok(e), w')
  {
    OnlyWord(w.nodes, w'.nodes, c.slot, SlotAt(w'.nodes, c.slot).cap.word);
    WordChangedConserves(w.nodes, w'.nodes, c.slot);
    WordChangedTame(w.nodes, w'.nodes, c.slot);
    PutKnown(w.nodes, c.slot, SlotAt(w'.nodes, c.slot), w.configs);
    Success(w, c, w', e);
  }

  lemma {:induction false} ThreadOutcome(w: World, c: Call, w': World, e: Threads.Event)
    requires CallOk(w, c) && SlotAt(w.nodes, c.slot).cap.ctype.Tcb?
    requires ThreadEffect(w.nodes, c.root, SlotAt(w.nodes, c.slot).cap.addr, c.inv, c.args, c.buffer, w.configs, w'.configs)
    requires w' == w.(configs := w'.configs) && Answers(w, c, Ok(e))
    ensures Outcome(w, c, Ok(e), w')
  {
    Success(w, c, w', e);
  }

  lemma {:induction false} IpcOutcome(w: World, c: Call, r: Result<Threads.Event>)
    requires CallOk(w, c) && r == Ipc(SlotAt(w.nodes, c.slot).cap, c.inv)
    requires SlotAt(w.nodes, c.slot).cap.ctype.EndPoint? || SlotAt(w.nodes, c.slot).cap.ctype.Notification?
    ensures Outcome(w, c, r, w)
  {
  }

  // ---------------------------------------------------------------- the kernel's side

  /** An error passed on. */
  function Fail<T, U>(r: Result<T>): (f: Result<U>)
    requires !r.Ok?
  {
    if r.Halt? then Halt else Err(r.kind, r.detail)
  }

  method GetWritable(slots: seq<Slot>, num: nat, index: nat) returns (r: Result<()>)
    ensures r == Writable(slots, num, index)
    ensures r.Ok? <==> num > 0 && index + num < |slots| && forall i :: index <= i < index + num ==> slots[i].Empty?
    ensures index + num >= |slots| ==> r == Err(InvalidOperation, 0)
    ensures index + num < |slots| && (exists i :: index <= i < index + num && slots[i].Full?) ==> r == Err(NotEmptySlot, 0)
  {
    if num + index >= |slots| {
      return Err(InvalidOperation, 0);
    }
    var i := index;
    while i < index + num
      invariant index <= i <= index + num && AllEmpty(slots, index, i - index)
    {
      if slots[i].Full? {
        return Err(NotEmptySlot, 0);
      }
      i := i + 1;
    }
    return if num == 0 then Halt else Ok(());
  }

  class System {
    var nodes: CNodes
    /** The root CNode of the current thread. */
    var root: Option<Cap>
    var configs: map<nat, Config>
    const spaces: AddressSpaces.Spaces
    const tcbSize: nat

    ghost predicate Valid()
      reads this, spaces
    {
      && WorldOk(Here()) && (root.Some? ==> root.value.ctype.CNode? && Sound(nodes, root.value))
      && |spaces.kernelRoot| == 512 && tcbSize % 8 == 0 && tcbSize > 0
    }

    ghost function Here(): (w: World)
      reads this, spaces
    {
      World(nodes, configs, spaces.tables, spaces.level)
    }

    constructor (nodes: CNodes, root: Cap, configs: map<nat, Config>, spaces: AddressSpaces.Spaces, tcbSize: nat)
      requires CapsOk(nodes) && root.ctype.CNode? && Sound(nodes, root) && ThreadsKnown(nodes, configs)
      requires Shape(spaces.tables) && |spaces.kernelRoot| == 512 && tcbSize % 8 == 0 && tcbSize > 0
      ensures Valid() && this.nodes == nodes && this.root == Some(root) && this.configs == configs && this.spaces == spaces && this.tcbSize == tcbSize
    {
      this.nodes, this.root, this.configs, this.spaces, this.tcbSize := nodes, Some(root), configs, spaces, tcbSize;
    }

    method LookupFull(ptr: nat, depth: nat) returns (r: Result<Place>)
      requires Valid() && root.Some?
      ensures r == FindFull(nodes, root.value, ptr, depth)
    {
      r := LookupEntry(nodes, root.value, ptr, depth);
      if r.Ok? && nodes[r.value.node][r.value.index].Empty? {
        r := Err(SlotIsEmpty, 0);
      }
    }

    method LookupTyped(ptr: nat, depth: nat, t: CapType) returns (r: Result<Place>)
      requires Valid() && root.Some?
      ensures r == FindTyped(nodes, root.value, ptr, depth, t)
    {
      r := LookupFull(ptr, depth);
      if r.Ok? && nodes[r.value.node][r.value.index].cap.ctype != t {
        r := Err(UnexpectedCapType, 0);
      }
    }

    /** Look up what to copy and where to. */
    method FindCopy(into: Cap, inv: Label, args: Args) returns (r: Result<Copying>)
      requires Valid() && root.Some? && into.ctype.CNode? && Sound(nodes, into)
      ensures r == CopyPlan(nodes, root.value, into, inv, args)
    {
      var src := LookupFull(args.a3, Lo(Hi(args.a4)));
      if !src.Ok? { return Fail(src); }
      var dest := LookupEntry(nodes, into, args.a5, Lo(args.a4));
      if !dest.Ok? { return Fail(dest); }
      if nodes[dest.value.node][dest.value.index].Full? { return Err(NotEmptySlot, 0); }
      var cap := Derive(nodes[src.value.node][src.value.index].cap);
      if !cap.Ok? { return Fail(cap); }
      r := Ok(Copying(src.value, dest.value, if inv.CNodeMint? then cap.value.(word := args.a6) else cap.value));
    }

    /** Copy, mint or move a capability.  On failure nothing changes. */
    method InvokeCNode(slot: Place, inv: Label, args: Args) returns (r: Result<()>)
      requires Valid() && root.Some? && IsFull(nodes, slot) && SlotAt(nodes, slot).cap.ctype.CNode?
      modifies this`nodes
      ensures match CopyPlan(old(nodes), root.value, SlotAt(old(nodes), slot).cap, inv, args)
              case Ok(c) => r == Ok(()) && nodes == Copied(old(nodes), inv, c)
              case Err(k, d) => r == Err(k, d) && nodes == old(nodes)
              case Halt => r == Halt && nodes == old(nodes)
    {
      var into := nodes[slot.node][slot.index].cap;
      assert Sound(nodes, into);
      var c := FindCopy(into, inv, args);
      if !c.Ok? { return Fail(c); }
      if inv.CNodeMove? {
        nodes := Put(nodes, c.value.src, Empty);
      }
      nodes := Put(nodes, c.value.dest, Full(c.value.cap));
      r := Ok(());
    }

    /** Retype an untyped capability and fill the slots, which have been checked. */
    method RetypeInto(c: Cap, slots: seq<Slot>, kind: CapType, ghost node: nat, index: nat, num: nat, userSize: nat)
      returns (r: Result<seq<Slot>>, word: nat)
      requires c.ctype.Untyped? && UntypedOk(c) && tcbSize % 8 == 0 && tcbSize > 0 && !kind.Untyped? && index + num <= |slots|
      ensures match Plan(c.addr, UntypedBits(c.word), UntypedFree(c.word), kind, userSize, num, tcbSize)
              case Ok(l) =>
                && r == Ok(Filled(slots, Making(kind, node, index, num, userSize, l)))
                && word == UntypedWord(l.end, UntypedBits(c.word)) && (kind.CNode? ==> userSize < 59)
              case Err(k, d) => r == Err(k, d)
              case Halt => r == Halt
    {
      var u := new UntypedCap.OfWord(c.addr, c.word, tcbSize);
      r := u.RetypeAndInsert(slots, index, kind, userSize, num);
      word := u.word;
      if r.Ok? {
        ghost var l := Plan(c.addr, UntypedBits(c.word), UntypedFree(c.word), kind, userSize, num, tcbSize).value;
        InsertedIsFilled(slots, r.value, Making(kind, node, index, num, userSize, l));
      }
    }

    /** Retype the untyped capability in `slot`; its word and the slots change together. */
    method MakeObjects(slot: Place, kind: CapType, node: nat, index: nat, num: nat, userSize: nat) returns (r: Result<()>)
      requires Valid() && IsFull(nodes, slot) && SlotAt(nodes, slot).cap.ctype.Untyped?
      requires !kind.Untyped? && node in nodes && Writable(nodes[node], num, index).Ok?
      modifies this`nodes
      ensures var c := SlotAt(old(nodes), slot).cap;
              match Plan(c.addr, UntypedBits(c.word), UntypedFree(c.word), kind, userSize, num, tcbSize)
              case Ok(l) => r == Ok(()) && (kind.CNode? ==> userSize < 59) && nodes == Retyped(old(nodes), slot, Making(kind, node, index, num, userSize, l))
              case Err(k, d) => r == Err(k, d) && nodes == old(nodes)
              case Halt => r == Halt && nodes == old(nodes)
    {
      var c := nodes[slot.node][slot.index].cap;
      var filled, word := RetypeInto(c, nodes[node], kind, node, index, num, userSize);
      if !filled.Ok? { return Fail(filled); }
      ghost var l := Plan(c.addr, UntypedBits(c.word), UntypedFree(c.word), kind, userSize, num, tcbSize).value;
      nodes := nodes[node := filled.value];
      nodes := Put(nodes, slot, Full(c.(word := word)));
      if kind.CNode? {
        AddCNodes(filled.value, index, num, userSize, Making(kind, node, index, num, userSize, l));
      }
      r := Ok(());
    }

    /** The memory of new CNodes holds empty slots. */
    method AddCNodes(slots: seq<Slot>, index: nat, num: nat, radix: nat, ghost m: Making)
      requires radix == m.userSize < 59 && index + num <= |slots| && forall i :: 0 <= i < num ==> slots[index + i] == NewSlot(m, i)
      modifies this`nodes
      ensures nodes == WithCNodes(old(nodes), m, num)
    {
      var i := 0;
      while i < num
        invariant i <= num && nodes == WithCNodes(old(nodes), m, i)
      {
        assert slots[index + i] == NewSlot(m, i);
        var addr := slots[index + i].cap.addr;
        if addr !in nodes {
          nodes := nodes[addr := EmptyNode(radix)];
        }
        i := i + 1;
      }
    }

    /** Memory retyped as page tables becomes zeroed tables. */
    method AddTables(slots: seq<Slot>, index: nat, num: nat, ghost m: Making)
      requires Shape(spaces.tables) && NewSlots(slots, index, num, m)
      modifies spaces`tables
      ensures spaces.tables == WithTables(old(spaces.tables), m, num)
    {
      var i := 0;
      while i < num
        invariant i <= num && spaces.tables == WithTables(old(spaces.tables), m, i)
      {
        assert slots[index + i] == NewSlot(m, index + i - index);
        spaces.AddTable(slots[index + i].cap.addr);
        i := i + 1;
      }
    }

    /** Memory retyped as threads becomes threads that are not configured. */
    method AddThreads(slots: seq<Slot>, index: nat, num: nat, ghost m: Making)
      requires NewSlots(slots, index, num, m)
      modifies this`configs
      ensures configs == WithThreads(old(configs), m, num)
    {
      var i := 0;
      while i < num
        invariant i <= num && configs == WithThreads(old(configs), m, i)
      {
        assert slots[index + i] == NewSlot(m, index + i - index);
        configs := configs[slots[index + i].cap.addr := NewConfig()];
        i := i + 1;
      }
    }

    /** What the new objects start as. */
    method InitObjects(slots: seq<Slot>, index: nat, num: nat, kind: CapType, ghost m: Making)
      requires Shape(spaces.tables) && kind == m.kind && num == m.num
      requires NewSlots(slots, index, num, m)
      modifies this`configs, spaces`tables
      ensures spaces.tables == if m.kind.PageTable? then WithTables(old(spaces.tables), m, m.num) else old(spaces.tables)
      ensures configs == if m.kind.Tcb? then WithThreads(old(configs), m, m.num) else old(configs)
    {
      if kind.PageTable? {
        AddTables(slots, index, num, m);
      } else if kind.Tcb? {
        AddThreads(slots, index, num, m);
      }
    }

    /** Retype the untyped capability in `slot` and initialise the new objects. */
    method MakeAndInit(slot: Place, kind: CapType, node: nat, index: nat, num: nat, userSize: nat) returns (r: Result<()>)
      requires Valid() && IsFull(nodes, slot) && SlotAt(nodes, slot).cap.ctype.Untyped?
      requires !kind.Untyped? && node in nodes && Writable(nodes[node], num, index).Ok?
      modifies this`nodes, this`configs, spaces`tables
      ensures var c := SlotAt(old(nodes), slot).cap;
              match Plan(c.addr, UntypedBits(c.word), UntypedFree(c.word), kind, userSize, num, tcbSize)
              case Ok(l) =>
                var m := Making(kind, node, index, num, userSize, l);
                && r == Ok(()) && (kind.CNode? ==> userSize < 59) && nodes == Retyped(old(nodes), slot, m)
                && spaces.tables == (if kind.PageTable? then WithTables(old(spaces.tables), m, num) else old(spaces.tables))
                && configs == (if kind.Tcb? then WithThreads(old(configs), m, num) else old(configs))
              case Err(k, d) => r == Err(k, d)
              case Halt => r == Halt
      ensures !r.Ok? ==> nodes == old(nodes) && spaces.tables == old(spaces.tables) && configs == old(configs)
    {
      ghost var c := nodes[slot.node][slot.index].cap;
      r := MakeObjects(slot, kind, node, index, num, userSize);
      if r.Ok? {
        ghost var l := Plan(c.addr, UntypedBits(c.word), UntypedFree(c.word), kind, userSize, num, tcbSize).value;
        ghost var m := Making(kind, node, index, num, userSize, l);
        RetypedWindow(old(nodes), slot, m);
        InitObjects(nodes[node], index, num, kind, m);
      }
    }

    /** Invoke an untyped capability: whatever is asked for, it is retyped.  On failure nothing
        changes. */
    method InvokeUntyped(slot: Place, args: Args) returns (r: Result<()>)
      requires Valid() && root.Some? && IsFull(nodes, slot) && SlotAt(nodes, slot).cap.ctype.Untyped?
      modifies this`nodes, this`configs, spaces`tables
      ensures match MakePlan(old(nodes), root.value, SlotAt(old(nodes), slot).cap, args, tcbSize)
              case Ok(m) =>
                && r == Ok(()) && nodes == Retyped(old(nodes), slot, m)
                && spaces.tables == (if m.kind.PageTable? then WithTables(old(spaces.tables), m, m.num) else old(spaces.tables))
                && configs == (if m.kind.Tcb? then WithThreads(old(configs), m, m.num) else old(configs))
              case Err(k, d) => r == Err(k, d)
              case Halt => r == Halt
      ensures !r.Ok? ==> nodes == old(nodes) && spaces.tables == old(spaces.tables) && configs == old(configs)
    {
      var kind := TypeOf(args.a6 % 256);
      if kind.None? { return Err(UnknownCapType, 0); }
      var p := LookupTyped(args.a3, Lo(args.a4), CNode);
      if !p.Ok? { return Fail(p); }
      var node, index, num := nodes[p.value.node][p.value.index].cap.addr, Lo(Hi(args.a4)), Lo(args.a5);
      assert Sound(nodes, nodes[p.value.node][p.value.index].cap);
      var w := GetWritable(nodes[node], num, index);
      if !w.Ok? { return w; }
      if kind.value.Untyped? { return Err(UnknownCapType, 0); }
      r := MakeAndInit(slot, kind.value, node, index, num, Hi(args.a5));
    }

    /** Map the page in `slot` into the address space of the named table. */
    method MapPage(slot: Place, args: Args) returns (r: Result<()>)
      requires Valid() && root.Some? && IsFull(nodes, slot) && SlotAt(nodes, slot).cap.ctype.Page?
      modifies this`nodes, spaces`tables
      ensures Shape(spaces.tables)
      ensures !r.Ok? ==> nodes == old(nodes) && spaces.tables == old(spaces.tables)
      ensures r == PageAnswer(old(nodes), root.value, SlotAt(old(nodes), slot).cap, PageMap, args, old(spaces.tables))
      ensures r.Ok? ==> var c := SlotAt(old(nodes), slot).cap; nodes == Put(old(nodes), slot, Full(c.(word := PageWord(c, PageMap, args))))
      ensures r.Ok? ==> PageEffect(old(nodes), root.value, SlotAt(old(nodes), slot).cap, PageMap, args, old(spaces.tables), spaces.tables)
      ensures r.Ok? ==>
                var table := TableNamed(old(nodes), root.value, args).value;
                old(spaces.InTree(table, args.a5)) ==>
                  && spaces.Valid()
                  && spaces.View() == old(spaces.View())[(table, Indices(args.a5)) :=
                                                           PageEntry(SlotAt(old(nodes), slot).cap.addr, PAGE_U + UserFlags(args.a6))]
    {
      if args.a5 % PAGE_SIZE != 0 { return Err(NotAligned, PAGE_SIZE); }
      var t := LookupTyped(args.a3, Lo(args.a4), PageTable);
      if !t.Ok? { return Fail(t); }
      var cap, table := nodes[slot.node][slot.index].cap, nodes[t.value.node][t.value.index].cap.addr;
      var cap';
      cap', r := spaces.MapPageCap(AddressSpaces.MemCap(cap.addr, cap.word), table, args.a5, PAGE_U + UserFlags(args.a6));
      if r.Ok? {
        MappedEffect(nodes, root.value, cap, table, args, old(spaces.tables), spaces.tables);
        nodes := Put(nodes, slot, Full(cap.(word := cap'.word)));
      }
    }

    /** Unmap the page in `slot` from where it remembers it is mapped. */
    method UnmapPage(slot: Place, args: Args) returns (r: Result<()>)
      requires Valid() && root.Some? && IsFull(nodes, slot) && SlotAt(nodes, slot).cap.ctype.Page?
      modifies this`nodes, spaces`tables
      ensures Shape(spaces.tables)
      ensures !r.Ok? ==> nodes == old(nodes) && spaces.tables == old(spaces.tables)
      ensures r == PageAnswer(old(nodes), root.value, SlotAt(old(nodes), slot).cap, PageUnMap, args, old(spaces.tables))
      ensures r.Ok? ==> var c := SlotAt(old(nodes), slot).cap; nodes == Put(old(nodes), slot, Full(c.(word := PageWord(c, PageUnMap, args))))
      ensures r.Ok? ==> PageEffect(old(nodes), root.value, SlotAt(old(nodes), slot).cap, PageUnMap, args, old(spaces.tables), spaces.tables)
      ensures r.Ok? ==>
                var table, at := TableNamed(old(nodes), root.value, args).value, MappedAddress(SlotAt(old(nodes), slot).cap.word);
                old(spaces.InTree(table, at)) ==>
                  spaces.Valid() && spaces.View() == old(spaces.View()) - {(table, Indices(at))}
    {
      var t := LookupTyped(args.a3, Lo(args.a4), PageTable);
      if !t.Ok? { return Fail(t); }
      var cap, table := nodes[slot.node][slot.index].cap, nodes[t.value.node][t.value.index].cap.addr;
      var cap';
      cap', r := spaces.UnmapPageCap(AddressSpaces.MemCap(cap.addr, cap.word), table);
      if r.Ok? {
        nodes := Put(nodes, slot, Full(cap.(word := cap'.word)));
      }
    }

    /** Link the table in `slot` into the address space of the named one; the level is reported. */
    method MapTable(slot: Place, args: Args) returns (r: Result<nat>)
      requires Valid() && root.Some? && IsFull(nodes, slot) && SlotAt(nodes, slot).cap.ctype.PageTable?
      modifies this`nodes, spaces
      ensures Shape(spaces.tables)
      ensures !r.Ok? ==> nodes == old(nodes) && spaces.tables == old(spaces.tables) && spaces.level == old(spaces.level)
      ensures Levelled(r) == TableAnswer(old(nodes), root.value, SlotAt(old(nodes), slot).cap, PageTableMap, args, old(spaces.tables))
      ensures r.Ok? ==> var c := SlotAt(old(nodes), slot).cap; nodes == Put(old(nodes), slot, Full(c.(word := TableWord(c, PageTableMap, args))))
      ensures r.Ok? ==> TableEffect(old(nodes), root.value, SlotAt(old(nodes), slot).cap, PageTableMap, args,
                                    old(spaces.tables), old(spaces.level), spaces.kernelRoot, spaces.tables, spaces.level)
      ensures r.Ok? ==>
                var table, t := TableNamed(old(nodes), root.value, args).value, SlotAt(old(nodes), slot).cap.addr;
                old(spaces.InTree(table, args.a5)) && old(spaces.Unlinked(t)) ==>
                  spaces.Valid() && spaces.View() == old(spaces.View()) && spaces.level == old(spaces.level)[t := r.value]
    {
      if args.a5 % PAGE_SIZE != 0 { return Err(NotAligned, PAGE_SIZE); }
      var t := LookupTyped(args.a3, Lo(args.a4), PageTable);
      if !t.Ok? { return Fail(t); }
      var cap, table := nodes[slot.node][slot.index].cap, nodes[t.value.node][t.value.index].cap.addr;
      var cap';
      cap', r := spaces.MapTableCap(AddressSpaces.MemCap(cap.addr, cap.word), table, args.a5);
      if r.Ok? {
        nodes := Put(nodes, slot, Full(cap.(word := cap'.word)));
      }
    }

    /** Make the table in `slot` a root. */
    method MakeRoot(slot: Place) returns (r: Result<()>)
      requires Valid() && IsFull(nodes, slot) && SlotAt(nodes, slot).cap.ctype.PageTable?
      modifies this`nodes, spaces
      ensures Shape(spaces.tables)
      ensures !r.Ok? ==> nodes == old(nodes) && spaces.tables == old(spaces.tables) && spaces.level == old(spaces.level)
      ensures var c := SlotAt(old(nodes), slot).cap;
              r == if IsMapped(c.word) then Err(PageTableAlreadyMapped, 0) else if c.addr !in old(spaces.tables) then Halt else Ok(())
      ensures r.Ok? ==> var c := SlotAt(old(nodes), slot).cap; nodes == Put(old(nodes), slot, Full(c.(word := AddressSpaces.RootWord(c.addr, c.word))))
      ensures r.Ok? ==>
                var t := SlotAt(old(nodes), slot).cap.addr;
                && t in old(spaces.tables) && spaces.tables == old(spaces.tables)[t := spaces.kernelRoot]
                && spaces.level == RootLevels(old(spaces.tables), old(spaces.level), spaces.kernelRoot, t)
                && (old(spaces.Valid()) ==> RootEffect(old(spaces.tables), old(spaces.level), spaces.kernelRoot, t))
    {
      var cap := nodes[slot.node][slot.index].cap;
      var cap';
      cap', r := spaces.MakeRootCap(AddressSpaces.MemCap(cap.addr, cap.word));
      if r.Ok? {
        nodes := Put(nodes, slot, Full(cap.(word := cap'.word)));
      }
    }

    /** Give the thread in `slot` its capability space and address space: two different slots, of
        the right types, and neither set before, which stops the kernel.  An error changes nothing. */
    method Configure(slot: Place, args: Args) returns (r: Result<()>)
      requires Valid() && root.Some? && IsFull(nodes, slot) && SlotAt(nodes, slot).cap.ctype.Tcb?
      modifies this`configs
      ensures !r.Ok? ==> configs == old(configs)
      ensures var c := old(configs)[SlotAt(nodes, slot).cap.addr];
              && r == ConfigureAnswer(nodes, root.value, args, c)
              && (r.Err? <==> !CanConfigure(nodes, root.value, args) && Looked(nodes, root.value, args))
              && (r.Ok? <==> CanConfigure(nodes, root.value, args) && c.cspace.None? && c.vspace.None?)
      ensures r.Ok? ==> ThreadEffect(nodes, root.value, SlotAt(nodes, slot).cap.addr, TcbConfigure, args, None, old(configs), configs)
    {
      var c := LookupEntry(nodes, root.value, args.a3, Lo(args.a4));
      if !c.Ok? { return Fail(c); }
      var v := LookupEntry(nodes, root.value, args.a5, Lo(args.a6));
      if !v.Ok? { return Fail(v); }
      if c.value == v.value { return Err(InvalidOperation, 0); }
      var cslot, vslot := nodes[c.value.node][c.value.index], nodes[v.value.node][v.value.index];
      if cslot.Empty? { return Err(SlotIsEmpty, 0); }
      if !cslot.cap.ctype.CNode? { return Err(UnexpectedCapType, 0); }
      if vslot.Empty? { return Err(SlotIsEmpty, 0); }
      if !vslot.cap.ctype.PageTable? { return Err(UnexpectedCapType, 0); }
      var t := nodes[slot.node][slot.index].cap.addr;
      if configs[t].cspace.Some? || configs[t].vspace.Some? { return Halt; }
      configs := configs[t := configs[t].(cspace := Some(cslot.cap))];
      configs := configs[t := configs[t].(vspace := Some(vslot.cap))];
      r := Ok(());
    }

    /** Give the thread in `slot` a mapped page as its IPC buffer. */
    method SetIpcBuffer(slot: Place, args: Args) returns (r: Result<()>)
      requires Valid() && root.Some? && IsFull(nodes, slot) && SlotAt(nodes, slot).cap.ctype.Tcb?
      modifies this`configs
      ensures !r.Ok? ==> configs == old(configs)
      ensures r == BufferAnswer(nodes, root.value, args, old(configs)[SlotAt(nodes, slot).cap.addr])
      ensures var p := FindTyped(nodes, root.value, args.a3, Lo(args.a4), Page);
              r.Ok? <==> p.Ok? && IsMapped(SlotAt(nodes, p.value).cap.word) && old(configs)[SlotAt(nodes, slot).cap.addr].ipc.None?
      ensures r.Ok? ==> ThreadEffect(nodes, root.value, SlotAt(nodes, slot).cap.addr, TcbSetIpcBuffer, args, None, old(configs), configs)
    {
      var p := LookupTyped(args.a3, Lo(args.a4), Page);
      if !p.Ok? { return Fail(p); }
      var page := Derive(nodes[p.value.node][p.value.index].cap);
      if !page.Ok? { return Fail(page); }
      var t := nodes[slot.node][slot.index].cap.addr;
      if configs[t].ipc.Some? { return Halt; }
      configs := configs[t := configs[t].(ipc := Some(page.value))];
      r := Ok(());
    }

    /** The registers of the thread in `slot` are the first words of the caller's message. */
    method WriteRegisters(slot: Place, buffer: Option<seq<nat>>) returns (r: Result<()>)
      requires Valid() && IsFull(nodes, slot) && SlotAt(nodes, slot).cap.ctype.Tcb? && (buffer.Some? ==> |buffer.value| == MESSAGE_LEN)
      modifies this`configs
      ensures r == if buffer.None? then Err(InvalidOperation, 0) else Ok(())
      ensures var t := SlotAt(nodes, slot).cap.addr;
              configs == if r.Ok? then old(configs)[t := old(configs)[t].(regs := buffer.value[..REGISTERS])] else old(configs)
    {
      if buffer.None? { return Err(InvalidOperation, 0); }
      var t := nodes[slot.node][slot.index].cap.addr;
      configs := configs[t := configs[t].(regs := buffer.value[..REGISTERS])];
      r := Ok(());
    }

    method InvokePage(slot: Place, inv: Label, args: Args) returns (r: Result<()>)
      requires Valid() && root.Some? && IsFull(nodes, slot) && SlotAt(nodes, slot).cap.ctype.Page?
      modifies this`nodes, spaces`tables
      ensures !r.Ok? ==> nodes == old(nodes) && spaces.tables == old(spaces.tables)
      ensures r == PageAnswer(old(nodes), root.value, SlotAt(old(nodes), slot).cap, inv, args, old(spaces.tables))
      ensures r.Ok? ==> var c := SlotAt(old(nodes), slot).cap; nodes == Put(old(nodes), slot, Full(c.(word := PageWord(c, inv, args))))
      ensures r.Ok? ==> PageEffect(old(nodes), root.value, SlotAt(old(nodes), slot).cap, inv, args, old(spaces.tables), spaces.tables)
      ensures Shape(spaces.tables)
    {
      match inv
      case PageMap => r := MapPage(slot, args);
      case PageUnMap => r := UnmapPage(slot, args);
      case _ => r := Err(UnknownInvocation, 0);
    }

    /** A table that is linked reports its level; unmapping tables is not implemented and stops the
        kernel. */
    method InvokePageTable(slot: Place, inv: Label, args: Args) returns (r: Result<Option<nat>>)
      requires Valid() && root.Some? && IsFull(nodes, slot) && SlotAt(nodes, slot).cap.ctype.PageTable?
      modifies this`nodes, spaces
      ensures !r.Ok? ==> nodes == old(nodes) && spaces.tables == old(spaces.tables) && spaces.level == old(spaces.level)
      ensures r == TableAnswer(old(nodes), root.value, SlotAt(old(nodes), slot).cap, inv, args, old(spaces.tables))
      ensures r.Ok? ==> var c := SlotAt(old(nodes), slot).cap; nodes == Put(old(nodes), slot, Full(c.(word := TableWord(c, inv, args))))
      ensures r.Ok? ==> TableEffect(old(nodes), root.value, SlotAt(old(nodes), slot).cap, inv, args,
                                    old(spaces.tables), old(spaces.level), spaces.kernelRoot, spaces.tables, spaces.level)
      ensures Shape(spaces.tables)
    {
      match inv
      case PageTableMap =>
        var level := MapTable(slot, args);
        r := if level.Ok? then Ok(Some(level.value)) else Fail(level);
      case PageTableMakeRoot =>
        var done := MakeRoot(slot);
        r := if done.Ok? then Ok(None) else Fail(done);
      case PageTableUnMap => r := Halt;
      case _ => r := Err(UnknownInvocation, 0);
    }

    /** Configure a thread, write its registers or resume it. */
    method InvokeTcb(slot: Place, inv: Label, args: Args, buffer: Option<seq<nat>>) returns (r: Result<Option<Threads.Event>>)
      requires Valid() && root.Some? && IsFull(nodes, slot) && SlotAt(nodes, slot).cap.ctype.Tcb?
      requires buffer.Some? ==> |buffer.value| == MESSAGE_LEN
      modifies this`configs
      ensures !r.Ok? ==> configs == old(configs)
      ensures r.Ok? ==> ThreadEffect(nodes, root.value, SlotAt(nodes, slot).cap.addr, inv, args, buffer, old(configs), configs)
      ensures var a := ThreadAnswer(nodes, root.value, inv, args, buffer, old(configs)[SlotAt(nodes, slot).cap.addr]);
              (r.Ok? <==> a.Ok?) && (!r.Ok? ==> Fail(r) == a)
      ensures r.Ok? ==> r.value == if inv.TcbResume? then Some(Threads.Resume(SlotAt(nodes, slot).cap.addr)) else None
    {
      match inv
      case TcbConfigure =>
        var done := Configure(slot, args);
        r := if done.Ok? then Ok(None) else Fail(done);
      case TcbSetIpcBuffer =>
        var done := SetIpcBuffer(slot, args);
        r := if done.Ok? then Ok(None) else Fail(done);
      case TcbWriteReg =>
        var done := WriteRegisters(slot, buffer);
        r := if done.Ok? then Ok(None) else Fail(done);
      case TcbResume => r := Ok(Some(Threads.Resume(nodes[slot.node][slot.index].cap.addr)));
      case _ => r := Err(UnknownInvocation, 0);
    }

    /** The place of the capability that is invoked. */
    ghost function Invoked(ptr: nat, depth: nat): (r: Result<Place>)
      requires Valid()
      reads this, spaces
      ensures r.Ok? ==> IsFull(nodes, r.value) && root.Some?
    {
      if root.None? then Err(CapNotFound, 0) else FindFull(nodes, root.value, ptr, Lo(depth))
    }

    /** The call that is being made. */
    ghost function CallOf(slot: Place, depth: nat, inv: Label, args: Args, buffer: Option<seq<nat>>): (c: Call)
      requires root.Some?
      reads this
    {
      Call(root.value, slot, depth, inv, args, buffer, tcbSize, spaces.kernelRoot)
    }

    /** Untyped memory.  `depth` is what the caller's a1 holds. */
    method InvokeBlock(depth: nat, inv: Label, args: Args, slot: Place, ghost c: Call) returns (r: Result<Threads.Event>)
      requires Valid() && root.Some? && c == CallOf(slot, depth, inv, args, c.buffer) && CallOk(Here(), c)
      requires SlotAt(nodes, slot).cap.ctype.Untyped?
      modifies this`nodes, this`configs, spaces`tables
      ensures Outcome(old(Here()), c, r, Here())
    {
      ghost var w := Here();
      assert UntypedOk(nodes[slot.node][slot.index].cap);
      var done := InvokeUntyped(slot, args);
      if done.Ok? {
        RetypeOutcome(w, c, Here(), Threads.Other(0, depth));
      }
      r := if done.Ok? then Ok(Threads.Other(0, depth)) else Fail(done);
    }

    /** CNodes. */
    method InvokeSlots(depth: nat, inv: Label, args: Args, slot: Place, ghost c: Call) returns (r: Result<Threads.Event>)
      requires Valid() && root.Some? && c == CallOf(slot, depth, inv, args, c.buffer) && CallOk(Here(), c)
      requires SlotAt(nodes, slot).cap.ctype.CNode?
      modifies this`nodes
      ensures Outcome(old(Here()), c, r, Here())
    {
      ghost var w := Here();
      assert Sound(nodes, nodes[slot.node][slot.index].cap);
      var done := InvokeCNode(slot, inv, args);
      if done.Ok? {
        CopyOutcome(w, c, Here(), Threads.Other(0, depth));
      }
      r := if done.Ok? then Ok(Threads.Other(0, depth)) else Fail(done);
    }

    /** Address spaces: pages and page tables. */
    method InvokeMemory(depth: nat, inv: Label, args: Args, slot: Place, ghost c: Call) returns (r: Result<Threads.Event>)
      requires Valid() && root.Some? && c == CallOf(slot, depth, inv, args, c.buffer) && CallOk(Here(), c)
      requires SlotAt(nodes, slot).cap.ctype.Page? || SlotAt(nodes, slot).cap.ctype.PageTable?
      modifies this`nodes, spaces
      ensures Outcome(old(Here()), c, r, Here())
    {
      ghost var w := Here();
      if nodes[slot.node][slot.index].cap.ctype.Page? {
        var done := InvokePage(slot, inv, args);
        r := if done.Ok? then Ok(Threads.Other(0, depth)) else Fail(done);
      } else {
        var done := InvokePageTable(slot, inv, args);
        r := if !done.Ok? then Fail(done) else Ok(Threads.Other(0, if done.value.Some? then done.value.value else depth));
      }
      if r.Ok? {
        MemoryOutcome(w, c, Here(), r.value);
      }
    }

    /** Threads. */
    method InvokeThread(depth: nat, inv: Label, args: Args, slot: Place, buffer: Option<seq<nat>>, ghost c: Call) returns (r: Result<Threads.Event>)
      requires Valid() && root.Some? && c == CallOf(slot, depth, inv, args, buffer) && CallOk(Here(), c)
      requires SlotAt(nodes, slot).cap.ctype.Tcb?
      modifies this`configs
      ensures Outcome(old(Here()), c, r, Here())
    {
      ghost var w := Here();
      var done := InvokeTcb(slot, inv, args, buffer);
      r := if !done.Ok? then Fail(done) else if done.value.Some? then Ok(done.value.value) else Ok(Threads.Other(0, depth));
      if r.Ok? {
        ThreadOutcome(w, c, Here(), r.value);
      }
    }

    /** Do what the type of the capability says. */
    method Invoke(depth: nat, inv: Label, args: Args, slot: Place, buffer: Option<seq<nat>>, ghost c: Call) returns (r: Result<Threads.Event>)
      requires Valid() && root.Some? && c == CallOf(slot, depth, inv, args, buffer) && CallOk(Here(), c)
      modifies this`nodes, this`configs, spaces
      ensures Outcome(old(Here()), c, r, Here())
    {
      var cap := nodes[slot.node][slot.index].cap;
      match cap.ctype
      case Untyped => r := InvokeBlock(depth, inv, args, slot, c);
      case CNode => r := InvokeSlots(depth, inv, args, slot, c);
      case Page => r := InvokeMemory(depth, inv, args, slot, c);
      case PageTable => r := InvokeMemory(depth, inv, args, slot, c);
      case EndPoint => r := Ipc(cap, inv); IpcOutcome(Here(), c, r);
      case Notification => r := Ipc(cap, inv); IpcOutcome(Here(), c, r);
      case Tcb => r := InvokeThread(depth, inv, args, slot, buffer, c);
    }

    /** One invocation, from the lookup of the capability to the event that the thread machine is to
        handle. */
    method HandleInvocation(ptr: nat, depth: nat, inv: Label, args: Args, buffer: Option<seq<nat>>) returns (r: Result<Threads.Event>)
      requires Valid() && (buffer.Some? ==> |buffer.value| == MESSAGE_LEN)
      modifies this`nodes, this`configs, spaces
      ensures match old(Invoked(ptr, depth))
              case Err(k, d) => r == Err(k, d) && Here() == old(Here())
              case Halt => r == Halt && Here() == old(Here())
              case Ok(slot) => Outcome(old(Here()), CallOf(slot, depth, inv, args, buffer), r, Here())
      ensures root.None? ==> r == Err(CapNotFound, 0)
    {
      if root.None? { return Err(CapNotFound, 0); }
      var slot := LookupFull(ptr, Lo(depth));
      if !slot.Ok? { return Fail(slot); }
      r := Invoke(depth, inv, args, slot.value, buffer, CallOf(slot.value, depth, inv, args, buffer));
    }
  }

  /** What invoking an endpoint or notification asks of the thread machine; the badge of the
      capability used is the one that is sent. */
  function Ipc(c: Cap, inv: Label): (r: Result<Threads.Event>)
  {
    match (c.ctype, inv)
    case (EndPoint, EpSend) => Ok(Threads.Send(c.addr, c.word))
    case (EndPoint, EpRecv) => Ok(Threads.Recv(c.addr))
    case (Notification, NotifySend) => Ok(Threads.Signal(c.addr, c.word))
    case (Notification, NotifyWait) => Ok(Threads.Wait(c.addr))
    case _ => Err(UnknownInvocation, 0)
  }

  /** The number by which an error is reported in the caller's a0. */
  function Code(k: ErrKind): (n: nat)
  {
    match k
    case NoMemory => 1
    case OutOfMemory => 3
    case UnknownCapType => 5
    case UnexpectedCapType => 6
    case NoEnoughSlot => 8
    case NotEmptySlot => 9
    case SlotIsEmpty => 10
    case VaddressAlreadyMapped => 11
    case PageTableAlreadyMapped => 12
    case PageTableNotMappedYet => 13
    case PageAlreadyMapped => 14
    case PageNotMappedYet => 15
    case UnknownInvocation => 16
    case CanNotDerivable => 17
    case InvalidOperation => 18
    case CapNotFound => 19
    case NotAligned => 20
  }

  /** The event by which the thread machine completes a system call. */
  function Completion(r: Result<Threads.Event>): (e: Threads.Event)
    requires !r.Halt?
  {
    match r
    case Ok(e) => e
    case Err(k, d) => Threads.Other(Code(k), d)
  }

  /** How many more slots an invocation of a capability of type t occupies. */
  function Added(t: CapType, inv: Label, args: Args): (n: nat)
  {
    match t
    case Untyped => Lo(args.a5)
    case CNode => if inv.CNodeMove? then 0 else 1
    case _ => 0
  }

  /** Only the word of the capability in one slot has changed. */
  ghost predicate WordChanged(nodes: CNodes, nodes': CNodes, slot: Place)
  {
    && IsFull(nodes, slot) && IsFull(nodes', slot) && nodes' == Put(nodes, slot, SlotAt(nodes', slot))
    && SlotAt(nodes', slot).cap == SlotAt(nodes, slot).cap.(word := SlotAt(nodes', slot).cap.word)
  }

  lemma {:induction false} OnlyWord(nodes: CNodes, nodes': CNodes, slot: Place, word: nat)
    requires IsFull(nodes, slot) && nodes' == Put(nodes, slot, Full(SlotAt(nodes, slot).cap.(word := word)))
    ensures WordChanged(nodes, nodes', slot) && SlotAt(nodes', slot).cap.word == word
  {
  }

  /** Then the same slots are occupied, by capabilities to the same objects. */
  lemma {:induction false} WordChangedConserves(nodes: CNodes, nodes': CNodes, slot: Place)
    requires WordChanged(nodes, nodes', slot)
    ensures Occupied(nodes') == Occupied(nodes) && KeepsObjects(nodes, nodes', {})
  {
    OccupiedPut(nodes, slot, SlotAt(nodes', slot));
  }

  /** What a successful invocation of the capability in `slot` keeps: it occupies as many more slots
      as its kind says, and every occupied slot but the source of a move still holds a capability
      to the same object. */
  ghost predicate Conserved(nodes: CNodes, nodes': CNodes, root: Cap, slot: Place, inv: Label, args: Args)
    requires Wf(nodes) && root.ctype.CNode? && Sound(nodes, root) && IsFull(nodes, slot)
  {
    var c := SlotAt(nodes, slot).cap;
    assert Sound(nodes, c);
    && |Occupied(nodes')| == |Occupied(nodes)| + Added(c.ctype, inv, args)
    && KeepsObjects(nodes, nodes', Source(nodes, root, c, inv, args))
  }

  /** The slot that a move empties. */
  ghost function Source(nodes: CNodes, root: Cap, c: Cap, inv: Label, args: Args): (s: set<Place>)
    requires Wf(nodes) && root.ctype.CNode? && Sound(nodes, root) && Sound(nodes, c)
  {
    if c.ctype.CNode? && inv.CNodeMove? && CopyPlan(nodes, root, c, inv, args).Ok?
    then {CopyPlan(nodes, root, c, inv, args).value.src} else {}
  }

  lemma {:induction false} RetypeConserved(nodes: CNodes, root: Cap, slot: Place, inv: Label, args: Args, tcbSize: nat)
    requires Wf(nodes) && root.ctype.CNode? && Sound(nodes, root) && IsFull(nodes, slot) && tcbSize % 8 == 0
    requires var c := SlotAt(nodes, slot).cap; c.ctype.Untyped? && UntypedOk(c) && MakePlan(nodes, root, c, args, tcbSize).Ok?
    ensures Conserved(nodes, Retyped(nodes, slot, MakePlan(nodes, root, SlotAt(nodes, slot).cap, args, tcbSize).value), root, slot, inv, args)
  {
    var m := MakePlan(nodes, root, SlotAt(nodes, slot).cap, args, tcbSize).value;
    RetypeConserves(nodes, slot, m);
    forall q | q in Occupied(nodes)
      ensures q in Occupied(Retyped(nodes, slot, m)) && SameCap(SlotAt(nodes, q), SlotAt(Retyped(nodes, slot, m), q))
    {
      RetypedSlot(nodes, slot, m, q);
    }
  }

  /** No CNode's radix is minted over, no circle of CNodes of one slot is closed, and new CNodes lie in
      memory where no CNode is. */
  ghost predicate Tame(nodes: CNodes, root: Cap, slot: Place, inv: Label, args: Args, tcbSize: nat)
    requires CapsOk(nodes) && root.ctype.CNode? && Sound(nodes, root) && IsFull(nodes, slot) && tcbSize % 8 == 0
  {
    var c := SlotAt(nodes, slot).cap;
    assert Sound(nodes, c) && UntypedOk(c);
    && (c.ctype.CNode? && CopyPlan(nodes, root, c, inv, args).Ok? ==>
          var copy := CopyPlan(nodes, root, c, inv, args).value;
          && (inv.CNodeMint? ==> !copy.cap.ctype.CNode?)
          && Harmless(Emptied(nodes, inv, copy), copy.dest, Full(copy.cap)))
    && (c.ctype.Untyped? && MakePlan(nodes, root, c, args, tcbSize).Ok? ==>
          FreshNodes(nodes, MakePlan(nodes, root, c, args, tcbSize).value))
  }

  lemma {:induction false} RetypeTame(nodes: CNodes, root: Cap, slot: Place, inv: Label, args: Args, tcbSize: nat)
    requires CapsOk(nodes) && root.ctype.CNode? && Sound(nodes, root) && IsFull(nodes, slot) && tcbSize % 8 == 0
    requires var c := SlotAt(nodes, slot).cap; c.ctype.Untyped? && UntypedOk(c) && MakePlan(nodes, root, c, args, tcbSize).Ok?
    ensures Tame(nodes, root, slot, inv, args, tcbSize) ==>
              var r := Retyped(nodes, slot, MakePlan(nodes, root, SlotAt(nodes, slot).cap, args, tcbSize).value);
              CapsOk(r) && Sound(r, root)
  {
    if Tame(nodes, root, slot, inv, args, tcbSize) {
      var c := SlotAt(nodes, slot).cap;
      var m := MakePlan(nodes, root, c, args, tcbSize).value;
      MovedFreeOk(c, m.kind, m.userSize, m.num, tcbSize);
      RetypeKeepsCaps(nodes, slot, m);
    }
  }

  lemma {:induction false} CopyTame(nodes: CNodes, root: Cap, slot: Place, inv: Label, args: Args, tcbSize: nat)
    requires CapsOk(nodes) && root.ctype.CNode? && Sound(nodes, root) && IsFull(nodes, slot) && tcbSize % 8 == 0
    requires var c := SlotAt(nodes, slot).cap; c.ctype.CNode? && Sound(nodes, c) && CopyPlan(nodes, root, c, inv, args).Ok?
    ensures Tame(nodes, root, slot, inv, args, tcbSize) ==>
              var r := Copied(nodes, inv, CopyPlan(nodes, root, SlotAt(nodes, slot).cap, inv, args).value);
              CapsOk(r) && Sound(r, root)
  {
    if Tame(nodes, root, slot, inv, args, tcbSize) {
      CopyKeepsCaps(nodes, root, SlotAt(nodes, slot).cap, inv, args);
    }
  }

  lemma {:induction false} WordChangedTame(nodes: CNodes, nodes': CNodes, slot: Place)
    requires CapsOk(nodes) && WordChanged(nodes, nodes', slot)
    requires !SlotAt(nodes, slot).cap.ctype.CNode? && !SlotAt(nodes, slot).cap.ctype.Untyped?
    ensures CapsOk(nodes') && forall c :: Sound(nodes, c) ==> Sound(nodes', c)
  {
    PutKeepsCaps(nodes, slot, SlotAt(nodes', slot));
  }

  lemma {:induction false} CopyConserved(nodes: CNodes, root: Cap, slot: Place, inv: Label, args: Args)
    requires Wf(nodes) && root.ctype.CNode? && Sound(nodes, root) && IsFull(nodes, slot)
    requires var c := SlotAt(nodes, slot).cap; c.ctype.CNode? && Sound(nodes, c) && CopyPlan(nodes, root, c, inv, args).Ok?
    ensures Conserved(nodes, Copied(nodes, inv, CopyPlan(nodes, root, SlotAt(nodes, slot).cap, inv, args).value), root, slot, inv, args)
  {
    CopyConserves(nodes, root, SlotAt(nodes, slot).cap, inv, args);
  }

  /** Every occupied slot but those excepted still holds a capability to the same object. */
  ghost predicate KeepsObjects(nodes: CNodes, nodes': CNodes, except: set<Place>)
  {
    forall q :: q in Occupied(nodes) && q !in except ==>
      q in Occupied(nodes') && SameCap(SlotAt(nodes, q), SlotAt(nodes', q))
  }

  /** Capabilities to the same object. */
  predicate SameCap(s: Slot, s': Slot)
  {
    s.Full? && s'.Full? && s'.cap.ctype == s.cap.ctype && s'.cap.addr == s.cap.addr
  }
}
