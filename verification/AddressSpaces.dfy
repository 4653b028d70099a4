/**
 The operations on page tables, changing them in place: the walk, linking a table,
 mapping and unmapping a page, making a root, and the capability layer that remembers
 where a page was mapped.  Each operation is specified by what it does to the plain map
 `View` of all address spaces.
 */
module AddressSpaces {
  import opened Kinds
  import opened Bits
  import opened Packing
  import opened PageTables
  import opened TableEffects

  /** A page-table entry by place: the table it is in and its index there. */
  datatype Cursor = Cursor(level: nat, table: nat, index: nat)

  /** A page or page-table capability: the object's address and the packed word. */
  datatype MemCap = MemCap(addr: nat, word: nat)

  /** The lowest level at which a table exists on the way along `ix`. */
  function Reached(ts: Tables, root: nat, ix: seq<nat>): (l: nat)
    requires Shape(ts) && IsPath(ix)
    ensures l <= 3
  {
    if TableAt(ts, root, ix, 0).Some? then 0
    else if TableAt(ts, root, ix, 1).Some? then 1
    else if TableAt(ts, root, ix, 2).Some? then 2
    else 3
  }

  lemma {:induction false} ReachedIs(ts: Tables, root: nat, ix: seq<nat>, level: nat)
    requires Shape(ts) && IsPath(ix) && level <= 3 && TableAt(ts, root, ix, level).Some?
    requires level > 0 ==> TableAt(ts, root, ix, level - 1).None?
    ensures Reached(ts, root, ix) == level
  {
    if level > 0 {
      NoneBelow(ts, root, ix, level - 1, 0);
      if level > 1 { NoneBelow(ts, root, ix, level - 1, 1); }
    }
  }

  lemma {:induction false} ReachedTable(ts: Tables, root: nat, ix: seq<nat>)
    requires Shape(ts) && IsPath(ix) && root in ts
    ensures TableAt(ts, root, ix, Reached(ts, root, ix)).Some?
    ensures Reached(ts, root, ix) > 0 ==> TableAt(ts, root, ix, Reached(ts, root, ix) - 1).None?
  {
  }

  /** The walk starts at no table, or follows an entry that leads to none. */
  predicate Dangles(ts: Tables, root: nat, ix: seq<nat>)
    requires Shape(ts) && IsPath(ix)
  {
    var l := Reached(ts, root, ix);
    match TableAt(ts, root, ix, l)
    case None => true
    case Some(t) => l > 0 && ts[t][ix[l]].Valid()
  }

  /** In the user half of a root it does not. */
  lemma {:induction false} TreeHolds(ts: Tables, lv: map<nat, nat>, kr: seq<Pte>, root: nat, ix: seq<nat>)
    requires Tree(ts, lv, kr) && IsRootTable(lv, root) && UserPath(ix)
    ensures !Dangles(ts, root, ix)
  {
    var l := Reached(ts, root, ix);
    ReachedTable(ts, root, ix);
    LevelOf(ts, lv, kr, root, ix, l);
    if l > 0 && ts[TableAt(ts, root, ix, l).value][ix[l]].Valid() {
      assert Inner(ts, lv, TableAt(ts, root, ix, l).value, ix[l]);
    }
  }

  // ---------------------------------------------------------------- answers, for whatever table is named

  /** What asking for a page to be mapped gives. */
  function MapAnswer(ts: Tables, root: nat, ix: seq<nat>): (r: Result<()>)
    requires Shape(ts) && IsPath(ix)
  {
    var l := Reached(ts, root, ix);
    if Dangles(ts, root, ix) then Halt
    else if l > 0 then Err(PageTableNotMappedYet, l)
    else if Lookup(ts, root, ix).Some? then Err(VaddressAlreadyMapped, 0)
    else Ok(())
  }

  /** What asking for it to be unmapped gives. */
  function UnmapAnswer(ts: Tables, root: nat, ix: seq<nat>, frame: nat): (r: Result<()>)
    requires Shape(ts) && IsPath(ix)
  {
    var l, e := Reached(ts, root, ix), Lookup(ts, root, ix);
    if Dangles(ts, root, ix) then Halt
    else if l > 0 then Err(PageTableNotMappedYet, l)
    else if e.None? then Err(PageNotMappedYet, 0)
    else if e.value.addr != frame then Err(InvalidOperation, 0)
    else Ok(())
  }

  /** What asking for a table to be linked gives: the level that it then has. */
  function LinkAnswer(ts: Tables, root: nat, ix: seq<nat>): (r: Result<nat>)
    requires Shape(ts) && IsPath(ix)
  {
    var l := Reached(ts, root, ix);
    if Dangles(ts, root, ix) then Halt
    else if l == 0 then Err(VaddressAlreadyMapped, 0)
    else Ok(l - 1)
  }

  /** A page can be mapped exactly where all tables are in place and no page is bound, unmapped exactly where it is
      bound, and a table linked exactly where one is missing, at the level below the lowest there is. */
  lemma {:induction false} GrantedWhere(ts: Tables, root: nat, ix: seq<nat>, frame: nat)
    requires Shape(ts) && IsPath(ix)
    ensures MapAnswer(ts, root, ix).Ok? <==> TableAt(ts, root, ix, 0).Some? && Lookup(ts, root, ix).None?
    ensures UnmapAnswer(ts, root, ix, frame).Ok? <==> Lookup(ts, root, ix).Some? && Lookup(ts, root, ix).value.addr == frame
    ensures LinkAnswer(ts, root, ix).Ok? <==> !Dangles(ts, root, ix) && TableAt(ts, root, ix, 0).None?
    ensures LinkAnswer(ts, root, ix).Ok? ==>
              var l := LinkAnswer(ts, root, ix).value; l < 3 && TableAt(ts, root, ix, l + 1).Some? && TableAt(ts, root, ix, l).None?
  {
    if root in ts {
      ReachedTable(ts, root, ix);
    } else {
      NoneBelow(ts, root, ix, 3, 0);
      NoneBelow(ts, root, ix, 3, 1);
      NoneBelow(ts, root, ix, 3, 2);
    }
  }

  /** The walk gets equally far, on every user path of every root. */
  ghost predicate SameReach(ts: Tables, ts': Tables, lv: map<nat, nat>)
    requires Shape(ts) && Shape(ts')
  {
    forall root, ix :: IsRootTable(lv, root) && UserPath(ix) ==> Reached(ts', root, ix) == Reached(ts, root, ix)
  }

  /** The walk gets at least as far. */
  ghost predicate MoreReach(ts: Tables, ts': Tables, lv: map<nat, nat>)
    requires Shape(ts) && Shape(ts')
  {
    forall root, ix :: IsRootTable(lv, root) && UserPath(ix) ==> Reached(ts', root, ix) <= Reached(ts, root, ix)
  }

  class Spaces {
    var tables: Tables
    ghost var level: map<nat, nat>
    const kernelRoot: seq<Pte>

    ghost predicate Valid()
      reads this
    {
      Standing(tables, level, kernelRoot) && forall i :: 0 <= i < 256 ==> kernelRoot[i] == EMPTY
    }

    /** All user bindings of all roots. */
    ghost function View(): (m: imap<(nat, seq<nat>), Pte>)
      requires Shape(tables)
      reads this
    {
      Bindings(tables, level)
    }

    /** The arguments for which the walk stays inside the tree. */
    ghost predicate InTree(root: nat, vaddr: nat)
      reads this
    {
      Valid() && IsRootTable(level, root) && UserHalf(vaddr)
    }

    /** A table that holds only zeros and is linked nowhere. */
    ghost predicate Unlinked(t: nat)
      reads this
    {
      t in tables && t !in level && Zeroed(tables[t])
    }

    constructor (kernelRoot: seq<Pte>)
      requires |kernelRoot| == 512 && forall i :: 0 <= i < 256 ==> kernelRoot[i] == EMPTY
      ensures Valid() && tables == map[] && level == map[] && this.kernelRoot == kernelRoot
    {
      tables, level := map[], map[];
      this.kernelRoot := kernelRoot;
    }

    /** Memory becomes a table by being zeroed. */
    method AddTable(t: nat)
      requires Shape(tables)
      modifies this`tables
      ensures tables == old(tables)[t := seq(512, _ => EMPTY)] && Shape(tables)
      ensures old(Valid()) && t !in level ==> Valid() && Unlinked(t) && View() == old(View()) && SameReach(old(tables), tables, level)
    {
      tables := tables[t := seq(512, _ => EMPTY)];
      if old(Valid()) && t !in level {
        OutsideStands(old(tables), level, kernelRoot, t, seq(512, _ => EMPTY));
        OutsideReach(old(tables), level, kernelRoot, t, seq(512, _ => EMPTY));
      }
    }

    /** Follow valid entries from level 3 down; stop at the first entry that is not valid,
        or at level 0.  `None` stands for following an entry that leads to no table. */
    method Walk(root: nat, vaddr: nat) returns (r: Option<Cursor>)
      requires Shape(tables)
      ensures r.Some? ==>
                var Cursor(l, t, i) := r.value;
                && l <= 3 && i == Indices(vaddr)[l] && t in tables
                && TableAt(tables, root, Indices(vaddr), l) == Some(t)
                && l == Reached(tables, root, Indices(vaddr))
                && (l > 0 ==> !tables[t][i].Valid())
      ensures r.None? <==> Dangles(tables, root, Indices(vaddr))
      ensures InTree(root, vaddr) ==> r.Some?
    {
      if InTree(root, vaddr) {
        TreeHolds(tables, level, kernelRoot, root, Indices(vaddr));
      }
      if root !in tables {
        NoneBelow(tables, root, Indices(vaddr), 3, 0);
        return None;
      }
      var table, l := root, 3;
      ghost var ix := Indices(vaddr);
      while l > 0
        invariant 0 <= l <= 3
        invariant table in tables && TableAt(tables, root, ix, l) == Some(table)
      {
        var pte := tables[table][Vpn(vaddr, l)];
        assert ix[l] == Vpn(vaddr, l);
        if !pte.Valid() {
          ReachedIs(tables, root, ix, l);
          return Some(Cursor(l, table, Vpn(vaddr, l)));
        }
        if pte.addr !in tables {
          ReachedIs(tables, root, ix, l);
          return None;
        }
        table, l := pte.addr, l - 1;
      }
      ReachedIs(tables, root, ix, 0);
      return Some(Cursor(0, table, Vpn(vaddr, 0)));
    }

    /** Link the table t where the walk for vaddr stops.  In a user entry of the tree, for an unlinked
        table of zeros, no binding changes, and the walk now gets one level further. */
    method MapTable(t: nat, root: nat, vaddr: nat) returns (r: Result<nat>)
      requires Shape(tables)
      modifies this
      ensures Shape(tables) && tables.Keys == old(tables).Keys
      ensures !r.Ok? ==> tables == old(tables) && level == old(level)
      ensures r == LinkAnswer(old(tables), root, Indices(vaddr))
      ensures r.Ok? ==> TableMapped(old(tables), old(level), root, Indices(vaddr), t, tables, level)
      ensures r.Ok? && old(Valid()) ==> LinkedAt(old(tables), old(level), kernelRoot, root, Indices(vaddr), t)
      ensures old(InTree(root, vaddr)) ==>
                r == var l := Reached(old(tables), root, Indices(vaddr));
                     if l == 0 then Err(VaddressAlreadyMapped, 0) else Ok(l - 1)
      ensures old(InTree(root, vaddr)) && old(Unlinked(t)) && r.Ok? ==>
                && Valid()
                && level == old(level)[t := r.value]
                && View() == old(View())
                && Reached(tables, root, Indices(vaddr)) == r.value
                && MoreReach(old(tables), tables, old(level))
                && TableAt(tables, root, Indices(vaddr), r.value) == Some(t)
    {
      var c := Walk(root, vaddr);
      if c.None? {
        return Halt;
      }
      var Cursor(l, p, i) := c.value;
      if l == 0 {
        return Err(VaddressAlreadyMapped, 0);
      }
      tables := Store(tables, p, i, TableEntry(t));
      level := LinkedLevels(old(tables), level, p, i, t);
      if old(Valid()) {
        LinkEffectHolds(old(tables), old(level), kernelRoot, p, i, t);
      }
      if old(InTree(root, vaddr)) && old(Unlinked(t)) {
        LinkInTree(old(tables), old(level), kernelRoot, root, Indices(vaddr), l, p, t);
        LinkWalks(old(tables), old(level), kernelRoot, root, Indices(vaddr), l, p, t);
      }
      r := Ok(l - 1);
    }

    /** Map one page: an entry that was not valid is written; in the user half of a root exactly one
        binding is added, or nothing changes. */
    method MapPage(frame: nat, root: nat, vaddr: nat, flags: nat) returns (r: Result<()>)
      requires Shape(tables)
      modifies this`tables
      ensures Shape(tables) && tables.Keys == old(tables).Keys
      ensures !r.Ok? ==> tables == old(tables)
      ensures r == MapAnswer(old(tables), root, Indices(vaddr))
      ensures r.Ok? ==> PageMapped(old(tables), root, Indices(vaddr), PageEntry(frame, flags), tables)
      ensures r.Ok? && old(Valid()) ==> StoredAt(old(tables), level, kernelRoot, root, Indices(vaddr), PageEntry(frame, flags))
      ensures old(InTree(root, vaddr)) ==>
                r == var l, key := Reached(old(tables), root, Indices(vaddr)), (root, Indices(vaddr));
                     if l > 0 then Err(PageTableNotMappedYet, l)
                     else if key in old(View()) then Err(VaddressAlreadyMapped, 0)
                     else Ok(())
      ensures old(InTree(root, vaddr)) && r.Ok? ==>
                && Valid()
                && View() == old(View())[(root, Indices(vaddr)) := PageEntry(frame, flags)]
                && tables == StoreAt(old(tables), root, Indices(vaddr), PageEntry(frame, flags))
                && SameReach(old(tables), tables, level)
    {
      var c := Walk(root, vaddr);
      if c.None? {
        return Halt;
      }
      var Cursor(l, t, i) := c.value;
      BindingAt(tables, level, (root, Indices(vaddr)));
      if l != 0 {
        return Err(PageTableNotMappedYet, l);
      } else if tables[t][i].Valid() {
        return Err(VaddressAlreadyMapped, 0);
      }
      tables := Store(tables, t, i, PageEntry(frame, flags));
      if old(Valid()) {
        LeafEffectHolds(old(tables), level, kernelRoot, t, i, PageEntry(frame, flags));
      }
      if old(InTree(root, vaddr)) {
        StoreInTree(old(tables), level, kernelRoot, root, Indices(vaddr), PageEntry(frame, flags));
      }
      r := Ok(());
    }

    /** Unmap one page: an entry that points at this very frame is cleared; in the user half of a root
        exactly its binding is removed. */
    method UnmapPage(frame: nat, root: nat, vaddr: nat) returns (r: Result<()>)
      requires Shape(tables)
      modifies this`tables
      ensures Shape(tables) && tables.Keys == old(tables).Keys
      ensures !r.Ok? ==> tables == old(tables)
      ensures r == UnmapAnswer(old(tables), root, Indices(vaddr), frame)
      ensures r.Ok? ==> PageUnmapped(old(tables), root, Indices(vaddr), frame, tables)
      ensures r.Ok? && old(Valid()) ==> StoredAt(old(tables), level, kernelRoot, root, Indices(vaddr), EMPTY)
      ensures old(InTree(root, vaddr)) ==>
                r == var l, key := Reached(old(tables), root, Indices(vaddr)), (root, Indices(vaddr));
                     if l > 0 then Err(PageTableNotMappedYet, l)
                     else if key !in old(View()) then Err(PageNotMappedYet, 0)
                     else if old(View())[key].addr != frame then Err(InvalidOperation, 0)
                     else Ok(())
      ensures old(InTree(root, vaddr)) && r.Ok? ==>
                && Valid()
                && View() == old(View()) - {(root, Indices(vaddr))}
                && tables == StoreAt(old(tables), root, Indices(vaddr), EMPTY)
                && SameReach(old(tables), tables, level)
    {
      var c := Walk(root, vaddr);
      if c.None? {
        return Halt;
      }
      var Cursor(l, t, i) := c.value;
      BindingAt(tables, level, (root, Indices(vaddr)));
      if l != 0 {
        return Err(PageTableNotMappedYet, l);
      } else if !tables[t][i].Valid() {
        return Err(PageNotMappedYet, 0);
      } else if tables[t][i].addr != frame {
        return Err(InvalidOperation, 0);
      }
      tables := Store(tables, t, i, EMPTY);
      if old(Valid()) {
        LeafEffectHolds(old(tables), level, kernelRoot, t, i, EMPTY);
      }
      if old(InTree(root, vaddr)) {
        StoreInTree(old(tables), level, kernelRoot, root, Indices(vaddr), EMPTY);
      }
      r := Ok(());
    }

    /** Copy the kernel root over a table; if it was not linked, it becomes a root with an
        empty address space and no other address space changes. */
    method CopyGlobalMapping(t: nat)
      requires Shape(tables) && t in tables && |kernelRoot| == 512
      modifies this
      ensures Shape(tables) && tables == old(tables)[t := kernelRoot] && level == RootLevels(old(tables), old(level), kernelRoot, t)
      ensures old(Valid()) ==> RootEffect(old(tables), old(level), kernelRoot, t)
      ensures old(Valid()) && t !in old(level) ==> Valid() && level == old(level)[t := 3] && View() == old(View())
    {
      if Valid() {
        RootEffectHolds(tables, level, kernelRoot, t);
      }
      level := RootLevels(tables, level, kernelRoot, t);
      tables := tables[t := kernelRoot];
    }

    // -------------------------------------------------------------- the capability layer

    /** Map the page of a capability, which then remembers where. */
    method MapPageCap(cap: MemCap, root: nat, vaddr: nat, flags: nat) returns (cap': MemCap, r: Result<()>)
      requires Shape(tables)
      modifies this`tables
      ensures Shape(tables) && tables.Keys == old(tables).Keys
      ensures !r.Ok? ==> tables == old(tables) && cap' == cap
      ensures r.Ok? ==> PageMapped(old(tables), root, Indices(vaddr), PageEntry(cap.addr, flags), tables)
      ensures r.Ok? && old(Valid()) ==> StoredAt(old(tables), level, kernelRoot, root, Indices(vaddr), PageEntry(cap.addr, flags))
      ensures r == if IsMapped(cap.word) then Err(PageAlreadyMapped, 0) else MapAnswer(old(tables), root, Indices(vaddr))
      ensures old(InTree(root, vaddr)) && !IsMapped(cap.word) ==>
                r == var l, key := Reached(old(tables), root, Indices(vaddr)), (root, Indices(vaddr));
                     if l > 0 then Err(PageTableNotMappedYet, l)
                     else if key in old(View()) then Err(VaddressAlreadyMapped, 0)
                     else Ok(())
      ensures old(InTree(root, vaddr)) && r.Ok? ==>
                && Valid()
                && View() == old(View())[(root, Indices(vaddr)) := PageEntry(cap.addr, flags)]
                && tables == StoreAt(old(tables), root, Indices(vaddr), PageEntry(cap.addr, flags))
                && SameReach(old(tables), tables, level)
      ensures r.Ok? ==> cap' == MemCap(cap.addr, Or(cap.word, SetMapped(vaddr))) && (cap.word == 0 ==> cap'.word == SetMapped(vaddr))
    {
      cap' := cap;
      if IsMapped(cap.word) {
        return cap, Err(PageAlreadyMapped, 0);
      }
      r := MapPage(cap.addr, root, vaddr, flags);
      if r.Ok? {
        cap' := MemCap(cap.addr, Or(cap.word, SetMapped(vaddr)));
        OrZero(SetMapped(vaddr));
      }
    }

    /** Unmap the page of a capability from where it remembers it is mapped. */
    method UnmapPageCap(cap: MemCap, root: nat) returns (cap': MemCap, r: Result<()>)
      requires Shape(tables)
      modifies this`tables
      ensures Shape(tables) && tables.Keys == old(tables).Keys
      ensures !r.Ok? ==> tables == old(tables) && cap' == cap
      ensures r.Ok? ==> PageUnmapped(old(tables), root, Indices(MappedAddress(cap.word)), cap.addr, tables)
      ensures r.Ok? && old(Valid()) ==> StoredAt(old(tables), level, kernelRoot, root, Indices(MappedAddress(cap.word)), EMPTY)
      ensures r == if !IsMapped(cap.word) then Err(PageNotMappedYet, 0)
                   else UnmapAnswer(old(tables), root, Indices(MappedAddress(cap.word)), cap.addr)
      ensures old(InTree(root, MappedAddress(cap.word))) && IsMapped(cap.word) ==>
                r == var ix := Indices(MappedAddress(cap.word));
                     var l := Reached(old(tables), root, ix);
                     if l > 0 then Err(PageTableNotMappedYet, l)
                     else if (root, ix) !in old(View()) then Err(PageNotMappedYet, 0)
                     else if old(View())[(root, ix)].addr != cap.addr then Err(InvalidOperation, 0)
                     else Ok(())
      ensures old(InTree(root, MappedAddress(cap.word))) && r.Ok? ==>
                && Valid()
                && View() == old(View()) - {(root, Indices(MappedAddress(cap.word)))}
                && tables == StoreAt(old(tables), root, Indices(MappedAddress(cap.word)), EMPTY)
                && SameReach(old(tables), tables, level)
      ensures r.Ok? ==> cap' == MemCap(cap.addr, 0)
    {
      cap' := cap;
      if !IsMapped(cap.word) {
        return cap, Err(PageNotMappedYet, 0);
      }
      r := UnmapPage(cap.addr, root, MappedAddress(cap.word));
      if r.Ok? {
        cap' := MemCap(cap.addr, 0);
      }
    }

    /** Link the table of a capability, unless the capability says it is mapped already. */
    method MapTableCap(cap: MemCap, root: nat, vaddr: nat) returns (cap': MemCap, r: Result<nat>)
      requires Shape(tables)
      modifies this
      ensures Shape(tables) && tables.Keys == old(tables).Keys
      ensures !r.Ok? ==> tables == old(tables) && level == old(level) && cap' == cap
      ensures r == if IsMapped(cap.word) then Err(PageTableAlreadyMapped, 0) else LinkAnswer(old(tables), root, Indices(vaddr))
      ensures r.Ok? ==> TableMapped(old(tables), old(level), root, Indices(vaddr), cap.addr, tables, level)
      ensures r.Ok? && old(Valid()) ==> LinkedAt(old(tables), old(level), kernelRoot, root, Indices(vaddr), cap.addr)
      ensures old(InTree(root, vaddr)) && !IsMapped(cap.word) ==>
                r == var l := Reached(old(tables), root, Indices(vaddr));
                     if l == 0 then Err(VaddressAlreadyMapped, 0) else Ok(l - 1)
      ensures old(InTree(root, vaddr)) && old(Unlinked(cap.addr)) && r.Ok? ==>
                && Valid()
                && level == old(level)[cap.addr := r.value]
                && View() == old(View())
                && Reached(tables, root, Indices(vaddr)) == r.value
                && MoreReach(old(tables), tables, old(level))
      ensures r.Ok? ==> cap' == MemCap(cap.addr, Or(cap.word, SetMapped(vaddr))) && (cap.word == 0 ==> cap'.word == SetMapped(vaddr))
    {
      cap' := cap;
      if IsMapped(cap.word) {
        return cap, Err(PageTableAlreadyMapped, 0);
      }
      r := MapTable(cap.addr, root, vaddr);
      if r.Ok? {
        cap' := MemCap(cap.addr, Or(cap.word, SetMapped(vaddr)));
        OrZero(SetMapped(vaddr));
      }
    }

    /** Turn an unmapped table into the root of a new address space. */
    method MakeRootCap(cap: MemCap) returns (cap': MemCap, r: Result<()>)
      requires Shape(tables) && |kernelRoot| == 512
      modifies this
      ensures Shape(tables)
      ensures !r.Ok? ==> tables == old(tables) && level == old(level) && cap' == cap
      ensures r == if IsMapped(cap.word) then Err(PageTableAlreadyMapped, 0) else if cap.addr !in old(tables) then Halt else Ok(())
      ensures r.Ok? ==>
                && tables == old(tables)[cap.addr := kernelRoot] && level == RootLevels(old(tables), old(level), kernelRoot, cap.addr)
                && (old(Valid()) ==> RootEffect(old(tables), old(level), kernelRoot, cap.addr))
      ensures r.Ok? && old(Valid()) && cap.addr !in old(level) ==>
                Valid() && level == old(level)[cap.addr := 3] && View() == old(View())
      ensures r.Ok? ==> cap' == MemCap(cap.addr, RootWord(cap.addr, cap.word)) && IsRoot(cap'.word) && IsMapped(cap'.word)
    {
      cap' := cap;
      if IsMapped(cap.word) {
        return cap, Err(PageTableAlreadyMapped, 0);
      } else if cap.addr !in tables {
        return cap, Halt;
      }
      CopyGlobalMapping(cap.addr);
      cap' := MemCap(cap.addr, RootWord(cap.addr, cap.word));
      r := Ok(());
    }

    // -------------------------------------------------------------- for programs that name a root and a user address

    /** A fresh capability is mapped in the user half of a root. */
    method MapFreshPage(frame: nat, root: nat, vaddr: nat, flags: nat) returns (cap: MemCap, r: Result<()>)
      requires InTree(root, vaddr)
      modifies this`tables
      ensures Valid() && tables.Keys == old(tables).Keys && SameReach(old(tables), tables, level)
      ensures r == var l, key := Reached(old(tables), root, Indices(vaddr)), (root, Indices(vaddr));
                   if l > 0 then Err(PageTableNotMappedYet, l)
                   else if key in old(View()) then Err(VaddressAlreadyMapped, 0)
                   else Ok(())
      ensures tables == if r.Ok? then StoreAt(old(tables), root, Indices(vaddr), PageEntry(frame, flags)) else old(tables)
      ensures View() == if r.Ok? then old(View())[(root, Indices(vaddr)) := PageEntry(frame, flags)] else old(View())
      ensures r.Ok? ==> cap == MemCap(frame, SetMapped(vaddr))
    {
      ClearWord();
      cap, r := MapPageCap(MemCap(frame, 0), root, vaddr, flags);
    }

    /** Memory is cleared and linked as a table. */
    method MapFreshTable(t: nat, root: nat, vaddr: nat) returns (r: Result<nat>)
      requires InTree(root, vaddr) && t !in tables
      modifies this
      ensures Valid() && View() == old(View())
      ensures forall u :: u in tables ==> u in old(tables) || u == t
      ensures forall u :: IsRootTable(old(level), u) ==> IsRootTable(level, u)
      ensures r == var l := Reached(old(tables), root, Indices(vaddr));
                   if l == 0 then Err(VaddressAlreadyMapped, 0) else Ok(l - 1)
      ensures r.Ok? ==> Reached(tables, root, Indices(vaddr)) == r.value && level == old(level)[t := r.value]
      ensures !r.Ok? ==> level == old(level)
      ensures MoreReach(old(tables), tables, old(level))
    {
      ClearWord();
      AddTable(t);
      var cap;
      cap, r := MapTableCap(MemCap(t, 0), root, vaddr);
    }

    /** What was mapped there is unmapped. */
    method UnmapMappedPage(frame: nat, root: nat, vaddr: nat) returns (r: Result<()>)
      requires InTree(root, vaddr) && Reached(tables, root, Indices(vaddr)) == 0
      requires (root, Indices(vaddr)) in View() && View()[(root, Indices(vaddr))].addr == frame
      modifies this`tables
      ensures r == Ok(()) && Valid() && tables == StoreAt(old(tables), root, Indices(vaddr), EMPTY)
    {
      IndicesOfMapped(vaddr);
      MappedAddressRoundTrip(vaddr);
      var cap;
      cap, r := UnmapPageCap(MemCap(frame, SetMapped(vaddr)), root);
    }
  }

  /** The word of a capability to the table t that is made a root: t's own address is remembered. */
  function RootWord(t: nat, word: nat): (w: nat)
    ensures IsRoot(w) && IsMapped(w)
    ensures word == 0 ==> w == SetRoot(KERNEL_V_ADDR_PFX + t)
  {
    RootWordIs(word, KERNEL_V_ADDR_PFX + t);
    Or(Or(word, SetMapped(KERNEL_V_ADDR_PFX + t)), 0x2_0000_0000_0000)
  }

  lemma {:induction false} RootWordIs(word: nat, self: nat)
    ensures var w := Or(Or(word, SetMapped(self)), 0x2_0000_0000_0000); IsRoot(w) && IsMapped(w)
    ensures word == 0 ==> Or(Or(word, SetMapped(self)), 0x2_0000_0000_0000) == SetRoot(self)
  {
    Pow2Of48();
    ShlIs(1, 49, 0x2_0000_0000_0000);
    SetMappedBits(self);
    MarkedWord(word, self);
    MarkedRoot(Or(word, SetMapped(self)));
    if word == 0 { OrZero(SetMapped(self)); }
  }

  /** The address remembered by a capability leads to the same entry. */
  lemma {:induction false} IndicesOfMapped(vaddr: nat)
    ensures Indices(MappedAddress(SetMapped(vaddr))) == Indices(vaddr)
  {
    MappedAddressRoundTrip(vaddr);
    SameIndicesSamePage(MappedAddress(SetMapped(vaddr)), vaddr);
  }

  /** Replace the leaf entry for `ix`. */
  ghost function StoreAt(ts: Tables, root: nat, ix: seq<nat>, e: Pte): (r: Tables)
    requires Shape(ts) && IsPath(ix)
  {
    match TableAt(ts, root, ix, 0)
    case None => ts
    case Some(t) => Store(ts, t, ix[0], e)
  }

  // ---------------------------------------------------------------- effects, for whatever table is named

  /** A page has been stored where the walk from `root` ended. */
  ghost predicate PageMapped(ts: Tables, root: nat, ix: seq<nat>, e: Pte, ts': Tables)
    requires Shape(ts) && IsPath(ix)
  {
    && TableAt(ts, root, ix, 0).Some?
    && var p := TableAt(ts, root, ix, 0).value;
    !ts[p][ix[0]].Valid() && ts' == Store(ts, p, ix[0], e)
  }

  /** The entry where the walk ended has been cleared; it pointed at the frame. */
  ghost predicate PageUnmapped(ts: Tables, root: nat, ix: seq<nat>, frame: nat, ts': Tables)
    requires Shape(ts) && IsPath(ix)
  {
    && TableAt(ts, root, ix, 0).Some?
    && var p := TableAt(ts, root, ix, 0).value;
    ts[p][ix[0]].Valid() && ts[p][ix[0]].addr == frame && ts' == Store(ts, p, ix[0], EMPTY)
  }

  /** The table t has been linked where the walk ended. */
  ghost predicate TableMapped(ts: Tables, lv: map<nat, nat>, root: nat, ix: seq<nat>, t: nat, ts': Tables, lv': map<nat, nat>)
    requires Shape(ts) && IsPath(ix)
  {
    var l := Reached(ts, root, ix);
    && TableAt(ts, root, ix, l).Some?
    && var p := TableAt(ts, root, ix, l).value;
    !ts[p][ix[l]].Valid() && ts' == Store(ts, p, ix[l], TableEntry(t)) && lv' == LinkedLevels(ts, lv, p, ix[l], t)
  }

  /** What storing e where the walk ends does to tree and bindings. */
  ghost predicate StoredAt(ts: Tables, lv: map<nat, nat>, kr: seq<Pte>, root: nat, ix: seq<nat>, e: Pte)
    requires Shape(ts) && IsPath(ix)
  {
    TableAt(ts, root, ix, 0).Some? ==> LeafEffect(ts, lv, kr, TableAt(ts, root, ix, 0).value, ix[0], e)
  }

  /** What linking t where the walk ends does. */
  ghost predicate LinkedAt(ts: Tables, lv: map<nat, nat>, kr: seq<Pte>, root: nat, ix: seq<nat>, t: nat)
    requires Shape(ts) && IsPath(ix)
  {
    var l := Reached(ts, root, ix);
    TableAt(ts, root, ix, l).Some? ==> LinkEffect(ts, lv, kr, TableAt(ts, root, ix, l).value, ix[l], t)
  }

  // ---------------------------------------------------------------- effects in the user half of a root

  lemma {:induction false} OutsideReach(ts: Tables, lv: map<nat, nat>, kr: seq<Pte>, t: nat, s: seq<Pte>)
    requires Tree(ts, lv, kr) && t !in lv && |s| == 512
    ensures Shape(ts[t := s]) && SameReach(ts, ts[t := s], lv)
  {
    forall root, ix | IsRootTable(lv, root) && UserPath(ix)
      ensures Reached(ts[t := s], root, ix) == Reached(ts, root, ix)
    {
      OutsideOffPath(ts, lv, kr, t, s, root, ix, 0);
      OutsideOffPath(ts, lv, kr, t, s, root, ix, 1);
      OutsideOffPath(ts, lv, kr, t, s, root, ix, 2);
    }
  }

  lemma {:induction false} LeafReach(ts: Tables, lv: map<nat, nat>, kr: seq<Pte>, t: nat, i: nat, e: Pte)
    requires Tree(ts, lv, kr) && t in lv && lv[t] == 0 && i < 512
    ensures SameReach(ts, Store(ts, t, i, e), lv)
  {
    forall r, p | IsRootTable(lv, r) && UserPath(p)
      ensures Reached(Store(ts, t, i, e), r, p) == Reached(ts, r, p)
    {
      LeafKeepsTables(ts, lv, kr, t, i, e, r, p, 0);
      LeafKeepsTables(ts, lv, kr, t, i, e, r, p, 1);
      LeafKeepsTables(ts, lv, kr, t, i, e, r, p, 2);
    }
  }

  /** In the user half of a root the entry where the walk ends is the one bound at (root, ix). */
  lemma {:induction false} StoreInTree(ts: Tables, lv: map<nat, nat>, kr: seq<Pte>, root: nat, ix: seq<nat>, e: Pte)
    requires Standing(ts, lv, kr) && IsRootTable(lv, root) && UserPath(ix) && TableAt(ts, root, ix, 0).Some? && (e.Valid() || e == EMPTY)
    ensures var ts' := StoreAt(ts, root, ix, e);
            Standing(ts', lv, kr) && SameReach(ts, ts', lv) && Bindings(ts', lv) == Changed(Bindings(ts, lv), (root, ix), if e.Valid() then Some(e) else None)
  {
    var t := TableAt(ts, root, ix, 0).value;
    LevelOf(ts, lv, kr, root, ix, 0);
    LeafStands(ts, lv, kr, t, ix[0], e);
    LeafReach(ts, lv, kr, t, ix[0], e);
    LeafChange(ts, lv, kr, root, ix, t, e);
  }

  lemma {:induction false} LinkReach(ts: Tables, lv: map<nat, nat>, p: nat, i: nat, t: nat)
    requires Shape(ts) && p in ts && i < 512 && !ts[p][i].Valid()
    ensures MoreReach(ts, Store(ts, p, i, TableEntry(t)), lv)
  {
    forall r, q | IsRootTable(lv, r) && UserPath(q)
      ensures Reached(Store(ts, p, i, TableEntry(t)), r, q) <= Reached(ts, r, q)
    {
      var k := Reached(ts, r, q);
      if k < 3 {
        LinkKeepsTables(ts, p, i, TableEntry(t), r, q, k);
      }
    }
  }

  /** In the user half of a root the link is right for an unlinked table of zeros. */
  lemma {:induction false} LinkInTree(ts: Tables, lv: map<nat, nat>, kr: seq<Pte>, root: nat, ix: seq<nat>, l: nat, p: nat, t: nat)
    requires Standing(ts, lv, kr) && Way(ts, lv, root, ix, l, p) && l > 0 && !ts[p][ix[l]].Valid()
    requires t in ts && t !in lv && Zeroed(ts[t])
    ensures var ts', lv' := Store(ts, p, ix[l], TableEntry(t)), lv[t := l - 1];
            && LinkedLevels(ts, lv, p, ix[l], t) == lv'
            && Standing(ts', lv', kr) && Bindings(ts', lv') == Bindings(ts, lv)
  {
    LevelOf(ts, lv, kr, root, ix, l);
    GoodLink(ts, lv, kr, p, ix[l], t);
  }

  /** The walk gets one level further, and no other walk less far. */
  lemma {:induction false} LinkWalks(ts: Tables, lv: map<nat, nat>, kr: seq<Pte>, root: nat, ix: seq<nat>, l: nat, p: nat, t: nat)
    requires Tree(ts, lv, kr) && Way(ts, lv, root, ix, l, p) && l > 0 && l == Reached(ts, root, ix) && !ts[p][ix[l]].Valid()
    requires t in ts && t !in lv && Zeroed(ts[t])
    ensures var ts' := Store(ts, p, ix[l], TableEntry(t));
            && Reached(ts', root, ix) == l - 1
            && TableAt(ts', root, ix, l - 1) == Some(t)
            && MoreReach(ts, ts', lv)
  {
    LinkReach(ts, lv, p, ix[l], t);
    LinkExtends(ts, lv, kr, root, ix, l, t);
    ReachedIs(Store(ts, p, ix[l], TableEntry(t)), root, ix, l - 1);
  }

  /** Unmapping what was just mapped restores the tables exactly, not only the bindings. */
  lemma {:induction false} MapUnmapRestores(ts: Tables, lv: map<nat, nat>, kr: seq<Pte>, root: nat, ix: seq<nat>, e: Pte)
    requires Tree(ts, lv, kr) && IsRootTable(lv, root) && UserPath(ix)
    requires TableAt(ts, root, ix, 0).Some? && Lookup(ts, root, ix).None?
    ensures Shape(StoreAt(ts, root, ix, e)) && StoreAt(StoreAt(ts, root, ix, e), root, ix, EMPTY) == ts
  {
    LevelOf(ts, lv, kr, root, ix, 0);
    var t := TableAt(ts, root, ix, 0).value;
    LeafKeepsTables(ts, lv, kr, t, ix[0], e, root, ix, 0);
    assert ts[t][ix[0]] == EMPTY;
    assert ts[t][ix[0] := e][ix[0] := EMPTY] == ts[t];
  }
}
