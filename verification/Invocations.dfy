/**
 What programs can rely on, over one invocation or several: what is sent, received, signalled and waited for
 through a capability, what a new capability is good for, that a page is unmapped from where it was
 mapped, and what the caller finds in its registers.
 */
module Invocations {
  import opened Kinds
  import opened Bits
  import opened Packing
  import opened CSpace
  import opened Retyping
  import opened PageTables
  import opened TableEffects
  import opened Syscall
  import AddressSpaces
  import Handles
  import opened Threads
  import ThreadRuns

  /** The capability that is invoked. */
  function CapOf(w: World, c: Syscall.Call): (cap: Cap)
    requires HasSlot(w.nodes, c.slot) && SlotAt(w.nodes, c.slot).Full?
  {
    SlotAt(w.nodes, c.slot).cap
  }

  /** The invocation c in w ends with r in w'. */
  ghost predicate Ends(w: World, c: Syscall.Call, r: Result<Event>, w': World)
  {
    CallOk(w, c) && Outcome(w, c, r, w')
  }

  // ---------------------------------------------------------------- communication

  /** A thread that can make calls. */
  ghost predicate Calling(a: State) { AtUser(a) && a.current != IDLE && !Waits(a.qs, a.current) }

  /** The thread machine knows the object of an endpoint or notification capability. */
  predicate Known(a: State, cap: Cap)
  {
    match cap.ctype
    case EndPoint => cap.addr in a.eps
    case Notification => cap.addr in a.nts
    case _ => false
  }

  /** Endpoints understand sending and receiving, notifications signalling and waiting; every other label is an error.
      Nothing but threads changes. */
  lemma {:induction false} IpcGranted(w: World, c: Syscall.Call, r: Result<Event>, w': World, a: State)
    requires Ends(w, c, r, w') && Calling(a) && Known(a, CapOf(w, c))
    ensures w' == w
    ensures r.Ok? <==> if CapOf(w, c).ctype.EndPoint? then c.inv.EpSend? || c.inv.EpRecv? else c.inv.NotifySend? || c.inv.NotifyWait?
    ensures r.Ok? ==> Enabled(a, r.value)
    ensures !r.Ok? ==> r == Err(UnknownInvocation, 0)
  {
  }

  /** One invocation and the trap that it leads to. */
  ghost predicate Trapped(w: World, c: Syscall.Call, r: Result<Event>, w': World, a: State, b: State)
  {
    Ends(w, c, r, w') && AtUser(a) && r.Ok? && Enabled(a, r.value) && Trap(a, r.value) == Some(b)
  }

  /** Sending through a capability sends its badge to its endpoint. */
  lemma {:induction false} SendArrives(w: World, c: Syscall.Call, r: Result<Event>, w': World, a: State, b: State)
    requires Trapped(w, c, r, w', a, b) && CapOf(w, c).ctype.EndPoint? && c.inv.EpSend?
    ensures ThreadRuns.Sent(a, b, CapOf(w, c).addr, CapOf(w, c).word)
  {
    ThreadRuns.SendDoes(a, CapOf(w, c).addr, CapOf(w, c).word, b);
  }

  /** Receiving through a capability receives from its endpoint. */
  lemma {:induction false} ReceiveArrives(w: World, c: Syscall.Call, r: Result<Event>, w': World, a: State, b: State)
    requires Trapped(w, c, r, w', a, b) && CapOf(w, c).ctype.EndPoint? && c.inv.EpRecv?
    ensures ThreadRuns.Received(a, b, CapOf(w, c).addr)
  {
    ThreadRuns.ReceiveDoes(a, CapOf(w, c).addr, b);
  }

  /** Signalling through a capability signals its badge to its notification. */
  lemma {:induction false} SignalArrives(w: World, c: Syscall.Call, r: Result<Event>, w': World, a: State, b: State)
    requires Trapped(w, c, r, w', a, b) && CapOf(w, c).ctype.Notification? && c.inv.NotifySend?
    ensures ThreadRuns.WasSignalled(a, b, CapOf(w, c).addr, CapOf(w, c).word)
  {
    ThreadRuns.SignalDoes(a, CapOf(w, c).addr, CapOf(w, c).word, b);
  }

  /** Waiting through a capability waits at its notification. */
  lemma {:induction false} WaitArrives(w: World, c: Syscall.Call, r: Result<Event>, w': World, a: State, b: State)
    requires Trapped(w, c, r, w', a, b) && CapOf(w, c).ctype.Notification? && c.inv.NotifyWait?
    ensures ThreadRuns.Awaited(a, b, CapOf(w, c).addr)
  {
    ThreadRuns.WaitDoes(a, CapOf(w, c).addr, b);
  }

  /** Resuming a thread through its capability makes that thread runnable. */
  lemma {:induction false} ResumeArrives(w: World, c: Syscall.Call, r: Result<Event>, w': World, a: State, b: State)
    requires Trapped(w, c, r, w', a, b) && CapOf(w, c).ctype.Tcb? && c.inv.TcbResume?
    ensures CapOf(w, c).addr in b.th && b.th[CapOf(w, c).addr].status == Runnable && b.qs == a.qs && w' == w
  {
    ThreadRuns.ResumeDoes(a, CapOf(w, c).addr, b);
  }

  /** What copying, minting or moving put into a slot: a capability to the same object, with the value minted onto it or
      without what the original had been told. */
  lemma {:induction false} CopiedCap(w: World, c: Syscall.Call, r: Result<Event>, w': World)
    requires Ends(w, c, r, w') && r.Ok? && CapOf(w, c).ctype.CNode?
    ensures Sound(w.nodes, CapOf(w, c)) && CopyPlan(w.nodes, c.root, CapOf(w, c), c.inv, c.args).Ok?
    ensures var copy := CopyPlan(w.nodes, c.root, CapOf(w, c), c.inv, c.args).value;
            IsFull(w'.nodes, copy.dest) && SlotAt(w'.nodes, copy.dest) == Full(CopyOf(SlotAt(w.nodes, copy.src).cap, c.inv, c.args.a6))
  {
    assert Sound(w.nodes, CapOf(w, c));
    CopiedThere(w.nodes, c.root, CapOf(w, c), c.inv, c.args);
  }

  lemma {:induction false} CopiedThere(nodes: CNodes, root: Cap, into: Cap, inv: Label, args: Args)
    requires Wf(nodes) && root.ctype.CNode? && Sound(nodes, root) && into.ctype.CNode? && Sound(nodes, into)
    requires CopyPlan(nodes, root, into, inv, args).Ok?
    ensures var copy := CopyPlan(nodes, root, into, inv, args).value;
            var nodes' := Copied(nodes, inv, copy);
            IsFull(nodes', copy.dest) && SlotAt(nodes', copy.dest) == Full(CopyOf(SlotAt(nodes, copy.src).cap, inv, args.a6))
  {
    CopyGranted(nodes, root, into, inv, args);
  }

  /** The value minted onto a copy of an endpoint or notification capability is what a send or signal through the copy
      delivers, at the object of the original; through a copy that was not minted 0 is delivered. */
  lemma {:induction false} MintedBadgeArrives(w: World, c: Syscall.Call, r: Result<Event>, w1: World,
                                              c1: Syscall.Call, r1: Result<Event>, w2: World, a: State, b: State)
    requires Ends(w, c, r, w1) && r.Ok? && CapOf(w, c).ctype.CNode?
    requires Sound(w.nodes, CapOf(w, c)) && CopyPlan(w.nodes, c.root, CapOf(w, c), c.inv, c.args).Ok?
    requires c1.slot == CopyPlan(w.nodes, c.root, CapOf(w, c), c.inv, c.args).value.dest && Trapped(w1, c1, r1, w2, a, b)
    ensures var src, badge := SlotAt(w.nodes, CopyPlan(w.nodes, c.root, CapOf(w, c), c.inv, c.args).value.src).cap, if c.inv.CNodeMint? then c.args.a6 else 0;
            && (src.ctype.EndPoint? && c1.inv.EpSend? ==> ThreadRuns.Sent(a, b, src.addr, badge))
            && (src.ctype.Notification? && c1.inv.NotifySend? ==> ThreadRuns.WasSignalled(a, b, src.addr, badge))
  {
    CopiedCap(w, c, r, w1);
    if CapOf(w1, c1).ctype.EndPoint? && c1.inv.EpSend? {
      SendArrives(w1, c1, r1, w2, a, b);
    } else if CapOf(w1, c1).ctype.Notification? && c1.inv.NotifySend? {
      SignalArrives(w1, c1, r1, w2, a, b);
    }
  }

  // ---------------------------------------------------------------- what the caller finds

  /** The trap that completes an invocation, whatever its result. */
  ghost predicate Completed(w: World, c: Syscall.Call, r: Result<Event>, w': World, a: State, b: State)
  {
    Ends(w, c, r, w') && !r.Halt? && AtUser(a) && Enabled(a, Completion(r)) && Trap(a, Completion(r)) == Some(b)
  }

  lemma {:induction false} ReplyIs(w: World, c: Syscall.Call, r: Result<Event>)
    requires CallOk(w, c) && Answers(w, c, r)
    ensures r.Ok? ==> !r.value.Tick? && (r.value.Other? ==> r.value == Other(0, Told(w, c)))
  {
    if CapOf(w, c).ctype.PageTable? && r.Ok? {
      LevelTold(w.nodes, c.root, CapOf(w, c), c.inv, c.args, w.tables);
    }
  }

  lemma {:induction false} LevelTold(nodes: CNodes, root: Cap, cap: Cap, inv: Label, args: Args, ts: Tables)
    requires Wf(nodes) && root.ctype.CNode? && Sound(nodes, root) && Shape(ts) && TableAnswer(nodes, root, cap, inv, args, ts).Ok?
    ensures inv.PageTableMap? ==>
              && TableNamed(nodes, root, args).Ok?
              && var l := AddressSpaces.Reached(ts, TableNamed(nodes, root, args).value, Indices(args.a5));
              l > 0 && TableAnswer(nodes, root, cap, inv, args, ts) == Ok(Some(l - 1))
    ensures !inv.PageTableMap? ==> TableAnswer(nodes, root, cap, inv, args, ts) == Ok(None)
  {
  }

  /** After a call that failed the caller finds the error in a0 and its detail in a1, and nothing else has changed; after
      one that succeeded it finds 0 in a0, and in a1, unless the call is about threads, what it had there or the
      level of a table. */
  lemma {:induction false} ResultReported(w: World, c: Syscall.Call, r: Result<Event>, w': World, a: State, b: State)
    requires Completed(w, c, r, w', a, b)
    ensures r.Err? ==> w' == w && Code(r.kind) != 0 && ThreadRuns.OnlyTold(a, b, Code(r.kind), r.detail)
    ensures r.Ok? ==> a.current in b.th && b.th[a.current].a0 == 0
    ensures r.Ok? && r.value.Other? ==> ThreadRuns.OnlyTold(a, b, 0, Told(w, c))
  {
    ReplyIs(w, c, r);
    TrapTold(a, Completion(r), b);
  }

  lemma {:induction false} TrapTold(a: State, ev: Event, b: State)
    requires AtUser(a) && Enabled(a, ev) && Trap(a, ev) == Some(b) && !ev.Tick?
    ensures a.current in b.th && b.th[a.current].a0 == ResultOf(ev)
    ensures ev.Other? ==> ThreadRuns.OnlyTold(a, b, ev.a0, ev.a1)
  {
    ThreadRuns.TrapMeets(a, ev, b);
    ThreadRuns.CallerMeets(a, ev, b);
    if ev.Other? {
      ThreadRuns.OtherDoes(a, ev.a0, ev.a1, b);
    }
  }

  /** The caller's a1 after a call that is granted: the level of a table that was linked, else what was there. */
  ghost function Told(w: World, c: Syscall.Call): (v: nat)
    requires CallOk(w, c)
  {
    if CapOf(w, c).ctype.PageTable? && c.inv.PageTableMap? && TableNamed(w.nodes, c.root, c.args).Ok?
       && AddressSpaces.Reached(w.tables, TableNamed(w.nodes, c.root, c.args).value, Indices(c.args.a5)) > 0
    then AddressSpaces.Reached(w.tables, TableNamed(w.nodes, c.root, c.args).value, Indices(c.args.a5)) - 1
    else c.depth
  }

  /** How the library reads a number in a0, for the errors that the kernel reports. */
  function KindOf(code: nat): (k: Option<ErrKind>)
  {
    if code == 1 then Some(NoMemory) else if code == 3 then Some(OutOfMemory) else if code == 5 then Some(UnknownCapType)
    else if code == 6 then Some(UnexpectedCapType) else if code == 8 then Some(NoEnoughSlot) else if code == 9 then Some(NotEmptySlot)
    else if code == 10 then Some(SlotIsEmpty) else if code == 11 then Some(VaddressAlreadyMapped) else if code == 12 then Some(PageTableAlreadyMapped)
    else if code == 13 then Some(PageTableNotMappedYet) else if code == 14 then Some(PageAlreadyMapped) else if code == 15 then Some(PageNotMappedYet)
    else if code == 16 then Some(UnknownInvocation) else if code == 17 then Some(CanNotDerivable) else if code == 18 then Some(InvalidOperation)
    else if code == 19 then Some(CapNotFound) else if code == 20 then Some(NotAligned) else None
  }

  /** So a call that failed (`ResultReported`) is read as the error it failed with, and no other as an error. */
  lemma {:induction false} ErrorRead(k: ErrKind)
    ensures KindOf(Code(k)) == Some(k) && Code(k) != 0 && KindOf(0) == None
  {
  }

  // ---------------------------------------------------------------- mapping and unmapping

  /** What a page that has been mapped is good for: it says so and remembers where, if it held no other address; then it
      can be copied and used as an IPC buffer. */
  lemma {:induction false} MappedPage(w: World, c: Syscall.Call, r: Result<Event>, w': World)
    requires Ends(w, c, r, w') && r.Ok? && CapOf(w, c).ctype.Page? && c.inv.PageMap?
    ensures IsFull(w'.nodes, c.slot)
    ensures var cap, cap' := CapOf(w, c), CapOf(w', c);
            && cap'.ctype == cap.ctype && cap'.addr == cap.addr && IsMapped(cap'.word) && Derivable(cap')
            && (Indices(MappedAddress(cap'.word)) == Indices(c.args.a5) <==> Covers(c.args.a5, cap.word))
  {
    OnlyWord(w.nodes, w'.nodes, c.slot, PageWord(CapOf(w, c), c.inv, c.args));
  }

  /** So mapping it again is refused, wherever it is asked for. */
  lemma {:induction false} MapAgainRefused(w: World, c: Syscall.Call, r: Result<Event>, w': World, c1: Syscall.Call, r1: Result<Event>, w1: World)
    requires Ends(w, c, r, w') && r.Ok? && CapOf(w, c).ctype.Page? && c.inv.PageMap?
    requires Ends(w', c1, r1, w1) && c1.slot == c.slot && c1.inv.PageMap?
    requires c1.args.a5 % PAGE_SIZE == 0 && TableNamed(w'.nodes, c1.root, c1.args).Ok?
    ensures r1 == Err(PageAlreadyMapped, 0) && w1 == w'
  {
    MappedPage(w, c, r, w');
    MappedRefuses(w', c1, r1, w1);
  }

  lemma {:induction false} MappedRefuses(w: World, c: Syscall.Call, r: Result<Event>, w': World)
    requires Ends(w, c, r, w') && CapOf(w, c).ctype.Page? && c.inv.PageMap? && IsMapped(CapOf(w, c).word)
    requires c.args.a5 % PAGE_SIZE == 0 && TableNamed(w.nodes, c.root, c.args).Ok?
    ensures r == Err(PageAlreadyMapped, 0) && w' == w
  {
  }

  /** A table that has been linked or made a root can be neither any more. */
  lemma {:induction false} TableAgainRefused(w: World, c: Syscall.Call, r: Result<Event>, w': World, c1: Syscall.Call, r1: Result<Event>, w1: World)
    requires Ends(w, c, r, w') && r.Ok? && CapOf(w, c).ctype.PageTable?
    requires Ends(w', c1, r1, w1) && c1.slot == c.slot && (c1.inv.PageTableMap? || c1.inv.PageTableMakeRoot?)
    requires c1.inv.PageTableMap? ==> c1.args.a5 % PAGE_SIZE == 0 && TableNamed(w'.nodes, c1.root, c1.args).Ok?
    ensures r1 == Err(PageTableAlreadyMapped, 0) && w1 == w'
  {
    OnlyWord(w.nodes, w'.nodes, c.slot, TableWord(CapOf(w, c), c.inv, c.args));
    assert IsMapped(CapOf(w', c1).word) && CapOf(w', c1).ctype.PageTable?;
    MappedTable(w', c1, r1, w1);
  }

  lemma {:induction false} MappedTable(w: World, c: Syscall.Call, r: Result<Event>, w': World)
    requires Ends(w, c, r, w') && CapOf(w, c).ctype.PageTable? && IsMapped(CapOf(w, c).word) && (c.inv.PageTableMap? || c.inv.PageTableMakeRoot?)
    requires c.inv.PageTableMap? ==> c.args.a5 % PAGE_SIZE == 0 && TableNamed(w.nodes, c.root, c.args).Ok?
    ensures r == Err(PageTableAlreadyMapped, 0) && w' == w
  {
  }

  /** The page mapped by c is asked to be unmapped by c1, through the same table. */
  ghost predicate Undoes(w: World, c: Syscall.Call, w': World, c1: Syscall.Call)
    requires CallOk(w, c) && CallOk(w', c1)
  {
    && CapOf(w, c).ctype.Page? && c.inv.PageMap? && c1.slot == c.slot && c1.inv.PageUnMap?
    && TableNamed(w.nodes, c.root, c.args).Ok? && TableNamed(w'.nodes, c1.root, c1.args) == TableNamed(w.nodes, c.root, c.args)
  }

  /** The address is one of user space, below a root. */
  ghost predicate InUserSpace(w: World, c: Syscall.Call)
    requires CallOk(w, c)
  {
    && SpacesOk(w, c.kr) && TableNamed(w.nodes, c.root, c.args).Ok? && UserHalf(c.args.a5)
    && IsRootTable(w.level, TableNamed(w.nodes, c.root, c.args).value)
  }

  /** Mapping a page in user space and unmapping it again always succeeds and restores everything: all tables and so all
      bindings, and the capability, if that was new. */
  lemma {:induction false} MapThenUnmap(w: World, c: Syscall.Call, r: Result<Event>, w1: World, c1: Syscall.Call, r1: Result<Event>, w2: World)
    requires Ends(w, c, r, w1) && r.Ok? && Ends(w1, c1, r1, w2) && Undoes(w, c, w1, c1)
    requires InUserSpace(w, c) && Covers(c.args.a5, CapOf(w, c).word)
    ensures r1.Ok? && w2 == w.(nodes := Put(w.nodes, c.slot, Full(CapOf(w, c).(word := 0))))
    ensures CapOf(w, c).word == 0 ==> w2 == w
  {
    var cap, cap1, table, ix := CapOf(w, c), CapOf(w1, c1), TableNamed(w.nodes, c.root, c.args).value, Indices(c.args.a5);
    var e := PageStored(cap, PageMap, c.args);
    MappedPage(w, c, r, w1);
    MapEffect(w, c, r, w1);
    StoredThere(w.tables, w.level, c.kr, table, ix, e);
    UnmapEffect(w1, c1, r1, w2, table, ix);
    AddressSpaces.MapUnmapRestores(w.tables, w.level, c.kr, table, ix, e);
    PutTwice(w.nodes, c.slot, cap, cap1.word, 0);
  }

  /** What mapping does to the world. */
  lemma {:induction false} MapEffect(w: World, c: Syscall.Call, r: Result<Event>, w': World)
    requires Ends(w, c, r, w') && r.Ok? && CapOf(w, c).ctype.Page? && c.inv.PageMap?
    ensures TableNamed(w.nodes, c.root, c.args).Ok? && c.args.a5 % PAGE_SIZE == 0
    ensures var cap, table, ix := CapOf(w, c), TableNamed(w.nodes, c.root, c.args).value, Indices(c.args.a5);
            && TableAt(w.tables, table, ix, 0).Some? && Lookup(w.tables, table, ix).None?
            && w' == World(Put(w.nodes, c.slot, Full(cap.(word := PageWord(cap, PageMap, c.args)))), w.configs,
                           AddressSpaces.StoreAt(w.tables, table, ix, PageStored(cap, PageMap, c.args)), w.level)
  {
  }

  /** What unmapping gives and does, for a page that remembers ix. */
  lemma {:induction false} UnmapEffect(w: World, c: Syscall.Call, r: Result<Event>, w': World, table: nat, ix: seq<nat>)
    requires Ends(w, c, r, w') && CapOf(w, c).ctype.Page? && c.inv.PageUnMap? && TableNamed(w.nodes, c.root, c.args) == Ok(table)
    requires IsMapped(CapOf(w, c).word) && ix == Indices(MappedAddress(CapOf(w, c).word))
    ensures r.Ok? <==> Lookup(w.tables, table, ix).Some? && Lookup(w.tables, table, ix).value.addr == CapOf(w, c).addr
    ensures r.Ok? ==>
              w' == World(Put(w.nodes, c.slot, Full(CapOf(w, c).(word := 0))), w.configs, AddressSpaces.StoreAt(w.tables, table, ix, EMPTY), w.level)
  {
    MemoryGranted(w.nodes, c.root, CapOf(w, c), c.args, w.tables);
  }

  lemma {:induction false} StoredThere(ts: Tables, lv: map<nat, nat>, kr: seq<Pte>, root: nat, ix: seq<nat>, e: Pte)
    requires Tree(ts, lv, kr) && IsRootTable(lv, root) && UserPath(ix) && TableAt(ts, root, ix, 0).Some? && e.Valid()
    ensures Shape(AddressSpaces.StoreAt(ts, root, ix, e)) && Lookup(AddressSpaces.StoreAt(ts, root, ix, e), root, ix) == Some(e)
  {
    LeafLookup(ts, lv, kr, root, ix, e, root, ix);
  }

  lemma {:induction false} PutTwice(nodes: CNodes, slot: Place, cap: Cap, word: nat, word': nat)
    requires IsFull(nodes, slot) && SlotAt(nodes, slot).cap == cap
    ensures Put(Put(nodes, slot, Full(cap.(word := word))), slot, Full(cap.(word := word'))) == Put(nodes, slot, Full(cap.(word := word')))
    ensures cap.word == word' ==> Put(nodes, slot, Full(cap.(word := word'))) == nodes
  {
    var s, x, y := nodes[slot.node], Full(cap.(word := word)), Full(cap.(word := word'));
    assert s[slot.index := x][slot.index := y] == s[slot.index := y];
    assert cap.word == word' ==> s[slot.index := y] == s;
  }

  /** The address by which the table was named still names it. */
  lemma {:induction false} SameTable(w: World, c: Syscall.Call, r: Result<Event>, w': World, c1: Syscall.Call)
    requires Ends(w, c, r, w') && r.Ok? && CapOf(w, c).ctype.Page? && c.inv.PageMap?
    requires CallOk(w', c1) && c1.root == c.root && c1.args.a3 == c.args.a3 && c1.args.a4 == c.args.a4
    ensures TableNamed(w.nodes, c.root, c.args).Ok? && TableNamed(w'.nodes, c1.root, c1.args) == TableNamed(w.nodes, c.root, c.args)
  {
    MapEffect(w, c, r, w');
    TableStays(w.nodes, w'.nodes, c.slot, PageWord(CapOf(w, c), PageMap, c.args), c.root, c.args, c1.args);
  }

  lemma {:induction false} TableStays(nodes: CNodes, nodes': CNodes, slot: Place, word: nat, root: Cap, args: Args, args': Args)
    requires Wf(nodes) && Wf(nodes') && root.ctype.CNode? && Sound(nodes, root) && Sound(nodes', root)
    requires IsFull(nodes, slot) && SlotAt(nodes, slot).cap.ctype.Page? && nodes' == Put(nodes, slot, Full(SlotAt(nodes, slot).cap.(word := word)))
    requires TableNamed(nodes, root, args).Ok? && args'.a3 == args.a3 && args'.a4 == args.a4
    ensures TableNamed(nodes', root, args') == TableNamed(nodes, root, args)
  {
    assert Handles.SameWays(nodes, nodes');
    Handles.StillResolves(nodes, nodes', root, PathBits(args.a3, Lo(args.a4)));
  }

  /** Minted over, a page capability forgets: with 0x2000 minted onto it and mapped at 0x1000, it remembers 0x3000. */
  lemma {:induction false} MintedPageForgets(c: Cap, args: Args, at: nat)
    requires c.ctype.Page? && c.word == 0x2000 && args.a5 == 0x1000 && at == 0x3000
    ensures !IsMapped(c.word) && !Covers(args.a5, c.word)
    ensures var w := PageWord(c, PageMap, args); Indices(MappedAddress(w)) == Indices(at) && Indices(MappedAddress(w)) != Indices(args.a5)
  {
    assert PageNumber(c.word) == 2 && PageNumber(args.a5) == 1 && PageNumber(at) == 3;
    OrIsThree(2, 1);
    Remembered(c, args, at);
  }

  lemma {:induction false} OrIsThree(a: nat, b: nat)
    requires a == 2 && b == 1
    ensures Or(a, b) == 3
  {
    OrBits(a, b);
    OrBits(1, 0);
    OrZero(1);
  }

  /** A page remembers the address with the bits of both. */
  lemma {:induction false} Remembered(c: Cap, args: Args, at: nat)
    requires PageNumber(at) == Or(PageNumber(c.word), PageNumber(args.a5))
    ensures Indices(MappedAddress(PageWord(c, PageMap, args))) == Indices(at)
  {
    MarkedWord(c.word, args.a5);
    SameIndices(MappedAddress(PageWord(c, PageMap, args)), at);
  }

  // ---------------------------------------------------------------- new capabilities

  /** A thread that has been given nothing, with registers of zeros. */
  predicate NotConfigured(x: Config)
  {
    x.cspace.None? && x.vspace.None? && x.ipc.None? && |x.regs| == REGISTERS && forall i :: 0 <= i < REGISTERS ==> x.regs[i] == 0
  }

  /** The i-th slot that a retype filled. */
  function NewPlace(m: Making, i: nat): (p: Place) { Place(m.node, m.index + i) }

  /** What a granted retype puts there: an unused capability to an object that has been made ready. */
  lemma {:induction false} RetypedCaps(w: World, c: Syscall.Call, r: Result<Event>, w': World, i: nat)
    requires Ends(w, c, r, w') && r.Ok? && CapOf(w, c).ctype.Untyped? && UntypedOk(CapOf(w, c)) && i < Lo(c.args.a5)
    ensures MakePlan(w.nodes, c.root, CapOf(w, c), c.args, c.tcbSize).Ok?
    ensures var m := MakePlan(w.nodes, c.root, CapOf(w, c), c.args, c.tcbSize).value;
            && IsFull(w'.nodes, NewPlace(m, i))
            && var made := SlotAt(w'.nodes, NewPlace(m, i)).cap;
            && made.ctype == m.kind && made.addr == m.layout.ObjectAt(i) && Unused(made, m.userSize)
            && (m.kind.PageTable? ==> made.addr in w'.tables && Zeroed(w'.tables[made.addr])) && (m.kind.Tcb? ==> made.addr in w'.configs && NotConfigured(w'.configs[made.addr]))
  {
    var m := MakePlan(w.nodes, c.root, CapOf(w, c), c.args, c.tcbSize).value;
    NewSlotUnused(w.nodes, c.slot, m, i);
    if m.kind.PageTable? { TableMade(w.tables, m, m.num, i); }
  }

  lemma {:induction false} NewSlotUnused(nodes: CNodes, slot: Place, m: Making, i: nat)
    requires IsFull(nodes, slot) && m.node in nodes && Writable(nodes[m.node], m.num, m.index).Ok? && (m.kind.CNode? ==> m.userSize < 59) && i < m.num
    ensures IsFull(Retyped(nodes, slot, m), NewPlace(m, i))
    ensures var made := SlotAt(Retyped(nodes, slot, m), NewPlace(m, i)).cap;
            made.ctype == m.kind && made.addr == m.layout.ObjectAt(i) && Unused(made, m.userSize)
  {
    RetypedSlot(nodes, slot, m, NewPlace(m, i));
    NewIsUnused(m.kind, m.layout.ObjectAt(i), m.userSize);
  }

  /** It touches no table or thread that lies elsewhere, and no slot but those asked for and its own. */
  lemma {:induction false} RetypeLeaves(w: World, c: Syscall.Call, r: Result<Event>, w': World)
    requires Ends(w, c, r, w') && r.Ok? && CapOf(w, c).ctype.Untyped? && UntypedOk(CapOf(w, c))
    ensures MakePlan(w.nodes, c.root, CapOf(w, c), c.args, c.tcbSize).Ok?
    ensures var m := MakePlan(w.nodes, c.root, CapOf(w, c), c.args, c.tcbSize).value;
            && (forall t :: t in w.tables && Elsewhere(m, m.num, t) ==> t in w'.tables && w'.tables[t] == w.tables[t])
            && (forall t :: t in w.configs && Elsewhere(m, m.num, t) ==> t in w'.configs && w'.configs[t] == w.configs[t])
            && (forall q :: HasSlot(w.nodes, q) && q != c.slot && !InWindow(m, q) ==> HasSlot(w'.nodes, q) && SlotAt(w'.nodes, q) == SlotAt(w.nodes, q))
  {
    var m := MakePlan(w.nodes, c.root, CapOf(w, c), c.args, c.tcbSize).value;
    OthersStay(w.tables, w.configs, m, m.num);
    forall q | HasSlot(w.nodes, q) && q != c.slot && !InWindow(m, q)
      ensures HasSlot(w'.nodes, q) && SlotAt(w'.nodes, q) == SlotAt(w.nodes, q)
    {
      RetypedSlot(w.nodes, c.slot, m, q);
    }
  }

  /** None of the first n new objects is at a. */
  ghost predicate Elsewhere(m: Making, n: nat, a: nat) { forall i :: 0 <= i < n ==> m.layout.ObjectAt(i) != a }

  lemma {:induction false} OthersStay(ts: Tables, configs: map<nat, Config>, m: Making, n: nat)
    ensures forall t :: t in ts && Elsewhere(m, n, t) ==> t in WithTables(ts, m, n) && WithTables(ts, m, n)[t] == ts[t]
    ensures forall t :: t in configs && Elsewhere(m, n, t) ==> t in WithThreads(configs, m, n) && WithThreads(configs, m, n)[t] == configs[t]
    decreases n
  {
    if n > 0 {
      OthersStay(ts, configs, m, n - 1);
      forall t | Elsewhere(m, n, t)
        ensures Elsewhere(m, n - 1, t) && t != m.layout.ObjectAt(n - 1)
      {
      }
    }
  }

  lemma {:induction false} TableMade(ts: Tables, m: Making, n: nat, i: nat)
    requires i < n
    ensures m.layout.ObjectAt(i) in WithTables(ts, m, n) && Zeroed(WithTables(ts, m, n)[m.layout.ObjectAt(i)])
    decreases n
  {
    if i < n - 1 { TableMade(ts, m, n - 1, i); }
  }

  /** What an unused capability is good for.  A page can be mapped wherever the tables are in place and nothing is bound, a
      table linked wherever one is missing or made a root, and an endpoint or notification sends badge 0. */
  lemma {:induction false} UnusedWorks(w: World, c: Syscall.Call, r: Result<Event>, w': World, userSize: nat)
    requires Ends(w, c, r, w') && Unused(CapOf(w, c), userSize)
    ensures CapOf(w, c).ctype.Page? && c.inv.PageMap? ==>
              var t, ix := TableNamed(w.nodes, c.root, c.args), Indices(c.args.a5);
              && (r.Ok? <==> c.args.a5 % PAGE_SIZE == 0 && t.Ok? && TableAt(w.tables, t.value, ix, 0).Some? && Lookup(w.tables, t.value, ix).None?)
              && Covers(c.args.a5, CapOf(w, c).word)
    ensures CapOf(w, c).ctype.PageTable? && c.inv.PageTableMap? ==>
              var t, ix := TableNamed(w.nodes, c.root, c.args), Indices(c.args.a5);
              r.Ok? <==> c.args.a5 % PAGE_SIZE == 0 && t.Ok? && !AddressSpaces.Dangles(w.tables, t.value, ix) && TableAt(w.tables, t.value, ix, 0).None?
    ensures CapOf(w, c).ctype.PageTable? && c.inv.PageTableMakeRoot? ==> (r.Ok? <==> CapOf(w, c).addr in w.tables)
    ensures CapOf(w, c).ctype.EndPoint? && c.inv.EpSend? ==> r == Ok(Send(CapOf(w, c).addr, 0))
    ensures CapOf(w, c).ctype.Notification? && c.inv.NotifySend? ==> r == Ok(Signal(CapOf(w, c).addr, 0))
  {
    if CapOf(w, c).ctype.Page? || CapOf(w, c).ctype.PageTable? {
      UnusedMaps(w, c, r, userSize);
    }
  }

  lemma {:induction false} UnusedMaps(w: World, c: Syscall.Call, r: Result<Event>, userSize: nat)
    requires CallOk(w, c) && Answers(w, c, r) && Unused(CapOf(w, c), userSize) && (CapOf(w, c).ctype.Page? || CapOf(w, c).ctype.PageTable?)
    ensures CapOf(w, c).ctype.Page? && c.inv.PageMap? ==>
              var t, ix := TableNamed(w.nodes, c.root, c.args), Indices(c.args.a5);
              && (r.Ok? <==> c.args.a5 % PAGE_SIZE == 0 && t.Ok? && TableAt(w.tables, t.value, ix, 0).Some? && Lookup(w.tables, t.value, ix).None?)
              && Covers(c.args.a5, CapOf(w, c).word)
    ensures CapOf(w, c).ctype.PageTable? && c.inv.PageTableMap? ==>
              var t, ix := TableNamed(w.nodes, c.root, c.args), Indices(c.args.a5);
              r.Ok? <==> c.args.a5 % PAGE_SIZE == 0 && t.Ok? && !AddressSpaces.Dangles(w.tables, t.value, ix) && TableAt(w.tables, t.value, ix, 0).None?
    ensures CapOf(w, c).ctype.PageTable? && c.inv.PageTableMakeRoot? ==> (r.Ok? <==> CapOf(w, c).addr in w.tables)
  {
    MemoryGranted(w.nodes, c.root, CapOf(w, c), c.args, w.tables);
    MarkedIndices(CapOf(w, c).word, c.args.a5);
  }

  /** A new thread can be configured, with any CNode and table that are found. */
  lemma {:induction false} NewThreadWorks(w: World, c: Syscall.Call, r: Result<Event>, w': World)
    requires Ends(w, c, r, w') && CapOf(w, c).ctype.Tcb? && CapOf(w, c).addr in w.configs && NotConfigured(w.configs[CapOf(w, c).addr])
    ensures c.inv.TcbConfigure? ==> (r.Ok? <==> CanConfigure(w.nodes, c.root, c.args))
    ensures c.inv.TcbSetIpcBuffer? ==>
              var p := FindTyped(w.nodes, c.root, c.args.a3, Lo(c.args.a4), Page);
              r.Ok? <==> p.Ok? && IsMapped(SlotAt(w.nodes, p.value).cap.word)
  {
    ThreadGranted(w.nodes, c.root, c.inv, c.args, c.buffer, w.configs[CapOf(w, c).addr]);
  }

  // ---------------------------------------------------------------- threads' capabilities

  /** What threads have been given: a sound CNode capability to look things up from, a table, a page. */
  ghost predicate ConfigsOk(nodes: CNodes, configs: map<nat, Config>)
  {
    forall t :: t in configs ==>
      && (configs[t].cspace.Some? ==> configs[t].cspace.value.ctype.CNode? && Sound(nodes, configs[t].cspace.value))
      && (configs[t].vspace.Some? ==> configs[t].vspace.value.ctype.PageTable?)
      && (configs[t].ipc.Some? ==> configs[t].ipc.value.ctype.Page?)
      && |configs[t].regs| == REGISTERS
  }

  /** After a thread has been configured, it has the two capabilities that were named; no other thread changes. */
  lemma {:induction false} Configured(w: World, c: Syscall.Call, r: Result<Event>, w': World)
    requires Ends(w, c, r, w') && r.Ok? && CapOf(w, c).ctype.Tcb? && c.inv.TcbConfigure?
    ensures CanConfigure(w.nodes, c.root, c.args) && w'.nodes == w.nodes && CapOf(w, c).addr in w.configs && CapOf(w, c).addr in w'.configs
    ensures var x, cs, vs := w'.configs[CapOf(w, c).addr], FindTyped(w.nodes, c.root, c.args.a3, Lo(c.args.a4), CNode).value,
                             FindTyped(w.nodes, c.root, c.args.a5, Lo(c.args.a6), PageTable).value;
            x.cspace == Some(SlotAt(w.nodes, cs).cap) && x.cspace.value.ctype.CNode? && x.vspace == Some(SlotAt(w.nodes, vs).cap) && x.vspace.value.ctype.PageTable?
    ensures var x, x' := w.configs[CapOf(w, c).addr], w'.configs[CapOf(w, c).addr]; x' == x.(cspace := x'.cspace, vspace := x'.vspace)
    ensures forall t :: t in w.configs && t != CapOf(w, c).addr ==> t in w'.configs && w'.configs[t] == w.configs[t]
  {
  }

  /** After a thread has been given an IPC buffer, it has the page that was named, as a copy that remembers no mapping. */
  lemma {:induction false} BufferGiven(w: World, c: Syscall.Call, r: Result<Event>, w': World)
    requires Ends(w, c, r, w') && r.Ok? && CapOf(w, c).ctype.Tcb? && c.inv.TcbSetIpcBuffer?
    ensures w'.nodes == w.nodes && CapOf(w, c).addr in w'.configs && FindTyped(w.nodes, c.root, c.args.a3, Lo(c.args.a4), Page).Ok?
    ensures var page, x := SlotAt(w.nodes, FindTyped(w.nodes, c.root, c.args.a3, Lo(c.args.a4), Page).value).cap, w'.configs[CapOf(w, c).addr];
            && x.ipc.Some? && x.ipc.value.ctype.Page? && x.ipc.value.addr == page.addr && IsMapped(page.word) && !IsMapped(x.ipc.value.word)
            && CapOf(w, c).addr in w.configs && x == w.configs[CapOf(w, c).addr].(ipc := x.ipc)
  {
    ClearWord();
  }

  /** After its registers have been written they are the first words of the caller's message. */
  lemma {:induction false} RegistersWritten(w: World, c: Syscall.Call, r: Result<Event>, w': World)
    requires Ends(w, c, r, w') && r.Ok? && CapOf(w, c).ctype.Tcb? && c.inv.TcbWriteReg?
    ensures c.buffer.Some? && CapOf(w, c).addr in w.configs && CapOf(w, c).addr in w'.configs
    ensures var x, x' := w.configs[CapOf(w, c).addr], w'.configs[CapOf(w, c).addr];
            && x' == x.(regs := x'.regs) && |x'.regs| == REGISTERS
            && forall i :: 0 <= i < REGISTERS ==> x'.regs[i] == c.buffer.value[i]
  {
  }

  /** Every call that keeps capabilities sound keeps those of threads sound. */
  lemma {:induction false} ConfigsStay(w: World, c: Syscall.Call, r: Result<Event>, w': World)
    requires Ends(w, c, r, w') && ConfigsOk(w.nodes, w.configs) && (r.Ok? ==> IsTame(w, c))
    ensures ConfigsOk(w'.nodes, w'.configs)
  {
    if r.Ok? {
      SoundStays(w, c, w');
      GivenStay(w, c, w');
    }
  }

  /** What was sound stays sound. */
  lemma {:induction false} SoundStays(w: World, c: Syscall.Call, w': World)
    requires CallOk(w, c) && SlotEffect(w.nodes, c.root, c.slot, c.inv, c.args, c.tcbSize, w'.nodes) && IsTame(w, c)
    ensures forall cap :: Sound(w.nodes, cap) ==> Sound(w'.nodes, cap)
  {
    var cap := CapOf(w, c);
    assert Sound(w.nodes, cap) && UntypedOk(cap);
    match cap.ctype
    case Untyped => RetypedShape(w.nodes, c.slot, MakePlan(w.nodes, c.root, cap, c.args, c.tcbSize).value);
    case CNode => CopyKeepsCaps(w.nodes, c.root, cap, c.inv, c.args);
    case Page => OnlyWord(w.nodes, w'.nodes, c.slot, PageWord(cap, c.inv, c.args)); WordChangedTame(w.nodes, w'.nodes, c.slot);
    case PageTable => OnlyWord(w.nodes, w'.nodes, c.slot, TableWord(cap, c.inv, c.args)); WordChangedTame(w.nodes, w'.nodes, c.slot);
    case _ =>
  }

  lemma {:induction false} GivenStay(w: World, c: Syscall.Call, w': World)
    requires CallOk(w, c) && ConfigEffect(w.nodes, c.root, c.slot, c.inv, c.args, c.buffer, c.tcbSize, w.configs, w'.configs)
    requires ConfigsOk(w.nodes, w.configs) && forall cap :: Sound(w.nodes, cap) ==> Sound(w'.nodes, cap)
    ensures ConfigsOk(w'.nodes, w'.configs)
  {
    var cap := CapOf(w, c);
    if cap.ctype.Untyped? {
      assert UntypedOk(cap);
      var m := MakePlan(w.nodes, c.root, cap, c.args, c.tcbSize).value;
      ThreadsGiven(w'.nodes, w.configs, m, m.num);
    } else if cap.ctype.Tcb? {
      ThreadGiven(w.nodes, w'.nodes, c.root, cap.addr, c.inv, c.args, c.buffer, w.configs, w'.configs);
    }
  }

  lemma {:induction false} ThreadsGiven(nodes: CNodes, configs: map<nat, Config>, m: Making, n: nat)
    requires ConfigsOk(nodes, configs)
    ensures ConfigsOk(nodes, WithThreads(configs, m, n))
    decreases n
  {
    if n > 0 { ThreadsGiven(nodes, configs, m, n - 1); }
  }

  lemma {:induction false} ThreadGiven(nodes: CNodes, nodes': CNodes, root: Cap, t: nat, inv: Label, args: Args, buffer: Option<seq<nat>>,
                                       configs: map<nat, Config>, configs': map<nat, Config>)
    requires Wf(nodes) && root.ctype.CNode? && Sound(nodes, root) && (buffer.Some? ==> |buffer.value| == MESSAGE_LEN)
    requires ThreadEffect(nodes, root, t, inv, args, buffer, configs, configs')
    requires ConfigsOk(nodes, configs) && forall cap :: Sound(nodes, cap) ==> Sound(nodes', cap)
    ensures ConfigsOk(nodes', configs')
  {
    if inv.TcbConfigure? {
      var cs := FindTyped(nodes, root, args.a3, Lo(args.a4), CNode).value;
      assert Sound(nodes, SlotAt(nodes, cs).cap);
    }
  }

  // ---------------------------------------------------------------- nothing is left open

  /** What an invocation answers and what it leads to is determined. */
  lemma {:induction false} OneOutcome(w: World, c: Syscall.Call, r: Result<Event>, w': World, r1: Result<Event>, w1: World)
    requires Ends(w, c, r, w') && Ends(w, c, r1, w1)
    ensures r1 == r && w1 == w'
  {
    SameAnswer(w, c, r, r1);
    if r.Ok? {
      SameEffect(w, c, w', w1);
    }
  }

  lemma {:induction false} SameAnswer(w: World, c: Syscall.Call, r: Result<Event>, r1: Result<Event>)
    requires CallOk(w, c) && Answers(w, c, r) && Answers(w, c, r1)
    ensures r1 == r
  {
  }

  lemma {:induction false} SameEffect(w: World, c: Syscall.Call, w': World, w1: World)
    requires CallOk(w, c) && Succeeded(w, c, w') && Succeeded(w, c, w1)
    ensures w1 == w'
  {
    SameSlots(w, c, w'.nodes, w1.nodes);
    SameConfigs(w, c, w'.configs, w1.configs);
    SameSpaces(w, c, w', w1);
  }

  lemma {:induction false} SameSlots(w: World, c: Syscall.Call, nodes: CNodes, nodes': CNodes)
    requires CallOk(w, c) && SlotEffect(w.nodes, c.root, c.slot, c.inv, c.args, c.tcbSize, nodes)
    requires SlotEffect(w.nodes, c.root, c.slot, c.inv, c.args, c.tcbSize, nodes')
    ensures nodes' == nodes
  {
  }

  lemma {:induction false} SameConfigs(w: World, c: Syscall.Call, configs: map<nat, Config>, configs': map<nat, Config>)
    requires CallOk(w, c) && ConfigEffect(w.nodes, c.root, c.slot, c.inv, c.args, c.buffer, c.tcbSize, w.configs, configs)
    requires ConfigEffect(w.nodes, c.root, c.slot, c.inv, c.args, c.buffer, c.tcbSize, w.configs, configs')
    ensures configs' == configs
  {
  }

  lemma {:induction false} SameSpaces(w: World, c: Syscall.Call, w': World, w1: World)
    requires CallOk(w, c) && SpaceEffect(w.nodes, c.root, c.slot, c.inv, c.args, c.tcbSize, w.tables, w.level, c.kr, w'.tables, w'.level)
    requires SpaceEffect(w.nodes, c.root, c.slot, c.inv, c.args, c.tcbSize, w.tables, w.level, c.kr, w1.tables, w1.level)
    ensures w1.tables == w'.tables && w1.level == w'.level
  {
  }
}
