/**
 Sv48 page tables.  Tables are pages of 512 entries, found by physical address and
 changed in place.  The main result: whatever sequence of operations is applied, the
 tables denote a plain map from (root, virtual page) to (frame, flags); mapping a page
 adds one binding, unmapping removes one, and linking a table or making a root changes
 nothing else.  The map is then compared with the translation algorithm of section 4.3.2
 of the RISC-V privileged architecture (version 20211203), run with four levels.
 */
module PageTables {
  import opened Kinds
  import opened Bits
  import opened Packing

  /** The two fields of an entry; `Packing.PteRoundTrip` ties them to the word. */
  datatype Pte = Pte(addr: nat, flags: nat) {
    predicate Valid() { flags % 2 == 1 }
  }

  const EMPTY := Pte(0, 0)

  /** Non-leaf entries carry the valid bit and nothing else. */
  function TableEntry(t: nat): (e: Pte) { Pte(t, PAGE_V) }

  function PageEntry(frame: nat, flags: nat): (e: Pte)
    ensures e.Valid()
  {
    Pte(frame, if flags % 2 == 1 then flags else flags + PAGE_V)
  }

  type Tables = map<nat, seq<Pte>>

  /** A table as it is after being cleared. */
  predicate Zeroed(s: seq<Pte>) { |s| == 512 && forall i :: 0 <= i < 512 ==> s[i] == EMPTY }

  ghost predicate Shape(ts: Tables) { forall t :: t in ts ==> |ts[t]| == 512 }

  /** The indices a virtual address selects, one for each level. */
  function Indices(vaddr: nat): (ix: seq<nat>)
    ensures IsPath(ix)
  {
    seq(4, l requires 0 <= l < 4 => Vpn(vaddr, l))
  }

  predicate IsPath(ix: seq<nat>) { |ix| == 4 && forall l :: 0 <= l < 4 ==> ix[l] < 512 }

  /** The lower half of the address space. */
  predicate UserPath(ix: seq<nat>) { IsPath(ix) && ix[3] < 256 }

  predicate UserHalf(vaddr: nat) { Vpn(vaddr, 3) < 256 }

  // ---------------------------------------------------------------- the tree

  /** The table of level `level` on the way from `root` along `ix`, if there is one. */
  function TableAt(ts: Tables, root: nat, ix: seq<nat>, level: nat): (r: Option<nat>)
    requires Shape(ts) && IsPath(ix) && level <= 3
    ensures r.Some? ==> r.value in ts
    decreases 3 - level
  {
    if level == 3 then
      if root in ts then Some(root) else None
    else
      match TableAt(ts, root, ix, level + 1)
      case None => None
      case Some(t) =>
        var e := ts[t][ix[level + 1]];
        if e.Valid() && e.addr in ts then Some(e.addr) else None
  }

  /** The leaf entry for `ix`, if the page is mapped. */
  function Lookup(ts: Tables, root: nat, ix: seq<nat>): (r: Option<Pte>)
    requires Shape(ts) && IsPath(ix)
  {
    match TableAt(ts, root, ix, 0)
    case None => None
    case Some(t) => if ts[t][ix[0]].Valid() then Some(ts[t][ix[0]]) else None
  }

  /** How many entries of a table belong to user space: the upper half of a root is the kernel's. */
  function Width(level: nat): (w: nat) { if level == 3 then 256 else 512 }

  /** Entry i of table t links a table of the next level. */
  ghost predicate Inner(ts: Tables, lv: map<nat, nat>, t: nat, i: int)
    requires Shape(ts)
  {
    t in lv && t in ts && 0 < lv[t] <= 3 && 0 <= i < Width(lv[t]) && ts[t][i].Valid()
  }

  /** Linked tables form an unshared tree under each root: `lv` gives each linked table its
      level, a valid inner entry leads one level down and no two lead to the same table;
      absent user entries are all zero, and the kernel half of every root is the kernel's. */
  ghost predicate Tree(ts: Tables, lv: map<nat, nat>, kernelRoot: seq<Pte>)
  {
    && Shape(ts)
    && |kernelRoot| == 512
    && (forall t :: t in lv ==> t in ts && lv[t] <= 3)
    && (forall t, i :: Inner(ts, lv, t, i) ==>
          ts[t][i].flags == PAGE_V && ts[t][i].addr in lv && lv[ts[t][i].addr] == lv[t] - 1)
    && (forall t, i, t', i' :: Inner(ts, lv, t, i) && Inner(ts, lv, t', i') && ts[t][i].addr == ts[t'][i'].addr ==>
          t == t' && i == i')
    && (forall t, i :: t in lv && 0 <= i < Width(lv[t]) && !ts[t][i].Valid() ==> ts[t][i] == EMPTY)
    && (forall t, i :: t in lv && lv[t] == 3 && 256 <= i < 512 ==> ts[t][i] == kernelRoot[i])
  }

  ghost predicate IsRootTable(lv: map<nat, nat>, t: nat) { t in lv && lv[t] == 3 }

  /** The plain map that the tables stand for. */
  ghost function Bindings(ts: Tables, lv: map<nat, nat>): (m: imap<(nat, seq<nat>), Pte>)
    requires Shape(ts)
  {
    imap k: (nat, seq<nat>) | IsRootTable(lv, k.0) && UserPath(k.1) && Lookup(ts, k.0, k.1).Some? ::
      Lookup(ts, k.0, k.1).value
  }

  lemma {:induction false} LevelOf(ts: Tables, lv: map<nat, nat>, kr: seq<Pte>, root: nat, ix: seq<nat>, level: nat)
    requires Tree(ts, lv, kr) && IsRootTable(lv, root) && UserPath(ix) && level <= 3
    ensures TableAt(ts, root, ix, level).Some? ==>
              TableAt(ts, root, ix, level).value in lv && lv[TableAt(ts, root, ix, level).value] == level
    ensures level < 3 && TableAt(ts, root, ix, level + 1).Some? ==>
              var t := TableAt(ts, root, ix, level + 1).value;
              Inner(ts, lv, t, ix[level + 1]) <==> TableAt(ts, root, ix, level) == Some(ts[t][ix[level + 1]].addr)
    decreases 3 - level
  {
    if level < 3 {
      LevelOf(ts, lv, kr, root, ix, level + 1);
    }
  }

  /** Two ways that lead to the same table are the same way: this is what not sharing buys. */
  lemma {:induction false} PathUnique(ts: Tables, lv: map<nat, nat>, kr: seq<Pte>, root: nat, ix: seq<nat>,
                                      root': nat, ix': seq<nat>, level: nat)
    requires Tree(ts, lv, kr) && level <= 3
    requires IsRootTable(lv, root) && UserPath(ix) && IsRootTable(lv, root') && UserPath(ix')
    requires TableAt(ts, root, ix, level).Some? && TableAt(ts, root, ix, level) == TableAt(ts, root', ix', level)
    ensures root == root' && forall l :: level < l <= 3 ==> ix[l] == ix'[l]
    decreases 3 - level
  {
    if level < 3 {
      LevelOf(ts, lv, kr, root, ix, level);
      LevelOf(ts, lv, kr, root', ix', level);
      var t, t' := TableAt(ts, root, ix, level + 1).value, TableAt(ts, root', ix', level + 1).value;
      assert Inner(ts, lv, t, ix[level + 1]) && Inner(ts, lv, t', ix'[level + 1]);
      PathUnique(ts, lv, kr, root, ix, root', ix', level + 1);
    }
  }

  // ---------------------------------------------------------------- storing one entry

  function Store(ts: Tables, t: nat, i: nat, e: Pte): (r: Tables)
    requires Shape(ts) && t in ts && i < 512
    ensures Shape(r)
  {
    ts[t := ts[t][i := e]]
  }

  /** A store off the path leaves the path alone. */
  lemma {:induction false} StoreOffPath(ts: Tables, t: nat, i: nat, e: Pte, root: nat, ix: seq<nat>, level: nat)
    requires Shape(ts) && t in ts && i < 512 && IsPath(ix) && level <= 3
    requires forall l :: level < l <= 3 && TableAt(ts, root, ix, l) == Some(t) ==> ix[l] != i
    ensures TableAt(Store(ts, t, i, e), root, ix, level) == TableAt(ts, root, ix, level)
    decreases 3 - level
  {
    if level < 3 {
      StoreOffPath(ts, t, i, e, root, ix, level + 1);
    }
  }

  /** A path goes through a table only at the level of that table. */
  lemma {:induction false} OnlyAtItsLevel(ts: Tables, lv: map<nat, nat>, kr: seq<Pte>, t: nat, root: nat, ix: seq<nat>)
    requires Tree(ts, lv, kr) && t in lv && IsRootTable(lv, root) && UserPath(ix)
    ensures forall l :: 0 <= l <= 3 && TableAt(ts, root, ix, l) == Some(t) ==> l == lv[t]
  {
    forall l | 0 <= l <= 3 && TableAt(ts, root, ix, l) == Some(t)
      ensures l == lv[t]
    {
      LevelOf(ts, lv, kr, root, ix, l);
    }
  }

  /** What a table that is not linked holds is of no account. */
  lemma {:induction false} OutsideKeepsTree(ts: Tables, lv: map<nat, nat>, kr: seq<Pte>, t: nat, s: seq<Pte>)
    requires Tree(ts, lv, kr) && t !in lv && |s| == 512
    ensures Tree(ts[t := s], lv, kr)
  {
    var ts' := ts[t := s];
    assert forall u, i :: Inner(ts', lv, u, i) ==> Inner(ts, lv, u, i) && ts'[u] == ts[u];
  }

  lemma {:induction false} OutsideOffPath(ts: Tables, lv: map<nat, nat>, kr: seq<Pte>, t: nat, s: seq<Pte>, root: nat, ix: seq<nat>, level: nat)
    requires Tree(ts, lv, kr) && t !in lv && |s| == 512 && IsRootTable(lv, root) && UserPath(ix) && level <= 3
    ensures TableAt(ts[t := s], root, ix, level) == TableAt(ts, root, ix, level)
    decreases 3 - level
  {
    if level < 3 {
      OutsideOffPath(ts, lv, kr, t, s, root, ix, level + 1);
      LevelOf(ts, lv, kr, root, ix, level + 1);
      if TableAt(ts, root, ix, level + 1).Some? {
        var u := TableAt(ts, root, ix, level + 1).value;
        if ts[u][ix[level + 1]].Valid() { assert Inner(ts, lv, u, ix[level + 1]); }
      }
    }
  }

  lemma {:induction false} OutsideLookup(ts: Tables, lv: map<nat, nat>, kr: seq<Pte>, t: nat, s: seq<Pte>, root: nat, ix: seq<nat>)
    requires Tree(ts, lv, kr) && t !in lv && |s| == 512 && IsRootTable(lv, root) && UserPath(ix)
    ensures Lookup(ts[t := s], root, ix) == Lookup(ts, root, ix)
  {
    OutsideOffPath(ts, lv, kr, t, s, root, ix, 0);
    LevelOf(ts, lv, kr, root, ix, 0);
  }

  lemma {:induction false} LeafKeepsTree(ts: Tables, lv: map<nat, nat>, kr: seq<Pte>, t: nat, i: nat, e: Pte)
    requires Tree(ts, lv, kr) && t in lv && lv[t] == 0 && i < 512
    requires e.Valid() || e == EMPTY
    ensures Tree(Store(ts, t, i, e), lv, kr)
  {
    var ts' := Store(ts, t, i, e);
    assert forall u, j :: Inner(ts', lv, u, j) ==> Inner(ts, lv, u, j) && ts'[u][j] == ts[u][j];
  }

  lemma {:induction false} SamePath(ix: seq<nat>, ix': seq<nat>)
    requires IsPath(ix) && IsPath(ix') && ix[0] == ix'[0] && forall l :: 0 < l <= 3 ==> ix[l] == ix'[l]
    ensures ix == ix'
  {
  }

  lemma {:induction false} LeafLookup(ts: Tables, lv: map<nat, nat>, kr: seq<Pte>, root: nat, ix: seq<nat>, e: Pte,
                                      root': nat, ix': seq<nat>)
    requires Tree(ts, lv, kr) && IsRootTable(lv, root) && UserPath(ix)
    requires TableAt(ts, root, ix, 0).Some?
    requires IsRootTable(lv, root') && UserPath(ix')
    ensures Lookup(Store(ts, TableAt(ts, root, ix, 0).value, ix[0], e), root', ix') ==
            if root' == root && ix' == ix then (if e.Valid() then Some(e) else None) else Lookup(ts, root', ix')
  {
    var t := TableAt(ts, root, ix, 0).value;
    LevelOf(ts, lv, kr, root, ix, 0);
    OnlyAtItsLevel(ts, lv, kr, t, root', ix');
    StoreOffPath(ts, t, ix[0], e, root', ix', 0);
    LeafSame(ts, lv, kr, root, ix, root', ix');
  }

  /** Only the way itself leads to its leaf entry. */
  lemma {:induction false} LeafSame(ts: Tables, lv: map<nat, nat>, kr: seq<Pte>, root: nat, ix: seq<nat>, root': nat, ix': seq<nat>)
    requires Tree(ts, lv, kr) && IsRootTable(lv, root) && UserPath(ix) && IsRootTable(lv, root') && UserPath(ix')
    requires TableAt(ts, root, ix, 0).Some?
    ensures TableAt(ts, root', ix', 0) == TableAt(ts, root, ix, 0) && ix'[0] == ix[0] ==> root' == root && ix' == ix
  {
    if TableAt(ts, root', ix', 0) == TableAt(ts, root, ix, 0) && ix'[0] == ix[0] {
      PathUnique(ts, lv, kr, root, ix, root', ix', 0);
      SamePath(ix, ix');
    }
  }

  /** Storing a leaf entry changes exactly one binding of one root. */
  lemma {:induction false} StoreLeaf(ts: Tables, lv: map<nat, nat>, kr: seq<Pte>, root: nat, ix: seq<nat>, e: Pte)
    requires Tree(ts, lv, kr) && IsRootTable(lv, root) && UserPath(ix)
    requires TableAt(ts, root, ix, 0).Some?
    requires e.Valid() || e == EMPTY
    ensures var t := TableAt(ts, root, ix, 0).value;
            var ts' := Store(ts, t, ix[0], e);
            && Tree(ts', lv, kr)
            && (forall root', ix' :: IsRootTable(lv, root') && UserPath(ix') ==>
                  Lookup(ts', root', ix') ==
                  if root' == root && ix' == ix then (if e.Valid() then Some(e) else None)
                  else Lookup(ts, root', ix'))
  {
    var t := TableAt(ts, root, ix, 0).value;
    LevelOf(ts, lv, kr, root, ix, 0);
    LeafKeepsTree(ts, lv, kr, t, ix[0], e);
    forall root', ix' | IsRootTable(lv, root') && UserPath(ix')
      ensures Lookup(Store(ts, t, ix[0], e), root', ix') ==
              if root' == root && ix' == ix then (if e.Valid() then Some(e) else None) else Lookup(ts, root', ix')
    {
      LeafLookup(ts, lv, kr, root, ix, e, root', ix');
    }
  }

  /** A leaf store moves no table. */
  lemma {:induction false} LeafKeepsTables(ts: Tables, lv: map<nat, nat>, kr: seq<Pte>, t: nat, i: nat, e: Pte,
                                           root: nat, ix: seq<nat>, level: nat)
    requires Tree(ts, lv, kr) && t in lv && lv[t] == 0 && i < 512 && level <= 3
    requires IsRootTable(lv, root) && UserPath(ix)
    ensures TableAt(Store(ts, t, i, e), root, ix, level) == TableAt(ts, root, ix, level)
  {
    OnlyAtItsLevel(ts, lv, kr, t, root, ix);
    StoreOffPath(ts, t, i, e, root, ix, level);
  }

  /** Writing an entry that was not valid hides no table. */
  lemma {:induction false} LinkKeepsTables(ts: Tables, t: nat, i: nat, e: Pte, root: nat, ix: seq<nat>, level: nat)
    requires Shape(ts) && t in ts && i < 512 && !ts[t][i].Valid() && IsPath(ix) && level <= 3
    requires TableAt(ts, root, ix, level).Some?
    ensures TableAt(Store(ts, t, i, e), root, ix, level) == TableAt(ts, root, ix, level)
    decreases 3 - level
  {
    if level < 3 {
      LinkKeepsTables(ts, t, i, e, root, ix, level + 1);
    }
  }

  /** Linking an empty table where nothing was linked changes no binding of any root. */
  lemma {:induction false} StoreInner(ts: Tables, lv: map<nat, nat>, kr: seq<Pte>, root: nat, ix: seq<nat>, level: nat, t': nat)
    requires Tree(ts, lv, kr) && IsRootTable(lv, root) && UserPath(ix) && 0 < level <= 3
    requires TableAt(ts, root, ix, level).Some? && TableAt(ts, root, ix, level - 1).None?
    requires t' in ts && t' !in lv && Zeroed(ts[t'])
    ensures var t := TableAt(ts, root, ix, level).value;
            var ts' := Store(ts, t, ix[level], TableEntry(t'));
            && Tree(ts', lv[t' := level - 1], kr)
            && TableAt(ts', root, ix, level - 1) == Some(t')
            && (level > 1 ==> TableAt(ts', root, ix, level - 2).None?)
            && (forall root', ix' :: IsRootTable(lv, root') && UserPath(ix') ==>
                  Lookup(ts', root', ix') == Lookup(ts, root', ix'))
  {
    var t := TableAt(ts, root, ix, level).value;
    var ts' := Store(ts, t, ix[level], TableEntry(t'));
    LevelOf(ts, lv, kr, root, ix, level);
    LevelOf(ts, lv, kr, root, ix, level - 1);
    LinkKeepsTree(ts, lv, kr, t, ix[level], t');
    LinkExtends(ts, lv, kr, root, ix, level, t');
    forall root', ix' | IsRootTable(lv, root') && UserPath(ix')
      ensures Lookup(ts', root', ix') == Lookup(ts, root', ix')
    {
      LinkKeepsLookup(ts, lv, kr, t, ix[level], t', root', ix');
    }
  }

  lemma {:induction false} LinkKeepsTree(ts: Tables, lv: map<nat, nat>, kr: seq<Pte>, t: nat, i: nat, t': nat)
    requires Tree(ts, lv, kr) && t in lv && 0 < lv[t] <= 3 && i < Width(lv[t]) && !ts[t][i].Valid()
    requires t' in ts && t' !in lv && Zeroed(ts[t'])
    ensures Tree(Store(ts, t, i, TableEntry(t')), lv[t' := lv[t] - 1], kr)
  {
    var ts', lv' := Store(ts, t, i, TableEntry(t')), lv[t' := lv[t] - 1];
    forall u, j | Inner(ts', lv', u, j)
      ensures (u == t && j == i) || (Inner(ts, lv, u, j) && ts'[u][j] == ts[u][j] && ts[u][j].addr != t')
    {
      LinkedInner(ts, lv, t, i, t', u, j);
    }
  }

  /** The links after t' has been linked: the new one, and those that were there. */
  lemma {:induction false} LinkedInner(ts: Tables, lv: map<nat, nat>, t: nat, i: nat, t': nat, u: nat, j: int)
    requires Shape(ts) && t in ts && t in lv && 0 < lv[t] <= 3 && i < Width(lv[t]) && t' in ts && t' !in lv && Zeroed(ts[t'])
    requires Inner(Store(ts, t, i, TableEntry(t')), lv[t' := lv[t] - 1], u, j)
    ensures (u == t && j == i) || (Inner(ts, lv, u, j) && Store(ts, t, i, TableEntry(t'))[u][j] == ts[u][j])
  {
  }

  lemma {:induction false} LinkExtends(ts: Tables, lv: map<nat, nat>, kr: seq<Pte>, root: nat, ix: seq<nat>, level: nat, t': nat)
    requires Tree(ts, lv, kr) && IsRootTable(lv, root) && UserPath(ix) && 0 < level <= 3
    requires TableAt(ts, root, ix, level).Some? && TableAt(ts, root, ix, level - 1).None?
    requires t' in ts && t' !in lv && Zeroed(ts[t'])
    ensures var t := TableAt(ts, root, ix, level).value;
            var ts' := Store(ts, t, ix[level], TableEntry(t'));
            && TableAt(ts', root, ix, level - 1) == Some(t')
            && (level > 1 ==> TableAt(ts', root, ix, level - 2).None?)
  {
    var t := TableAt(ts, root, ix, level).value;
    var ts' := Store(ts, t, ix[level], TableEntry(t'));
    LevelOf(ts, lv, kr, root, ix, level);
    OnlyAtItsLevel(ts, lv, kr, t, root, ix);
    StoreOffPath(ts, t, ix[level], TableEntry(t'), root, ix, level);
    assert t != t' && ts'[t'] == ts[t'];
  }

  lemma {:induction false} LinkKeepsLookup(ts: Tables, lv: map<nat, nat>, kr: seq<Pte>, t: nat, i: nat, t': nat,
                                           root: nat, ix: seq<nat>)
    requires Tree(ts, lv, kr) && t in lv && 0 < lv[t] <= 3 && i < Width(lv[t]) && !ts[t][i].Valid()
    requires t' in ts && t' !in lv && Zeroed(ts[t'])
    requires IsRootTable(lv, root) && UserPath(ix)
    ensures Lookup(Store(ts, t, i, TableEntry(t')), root, ix) == Lookup(ts, root, ix)
  {
    var ts' := Store(ts, t, i, TableEntry(t'));
    OnlyAtItsLevel(ts, lv, kr, t, root, ix);
    var l := lv[t];
    if TableAt(ts, root, ix, l) == Some(t) && ix[l] == i {
      assert TableAt(ts, root, ix, l - 1).None?;
      NoneBelow(ts, root, ix, l - 1, 0);
      LinkExtends(ts, lv, kr, root, ix, l, t');
      if l > 1 {
        NoneBelow(ts', root, ix, l - 2, 0);
      } else {
        assert ts'[t'] == ts[t'];
      }
    } else {
      StoreOffPath(ts, t, i, TableEntry(t'), root, ix, 0);
      if TableAt(ts, root, ix, 0).Some? {
        LevelOf(ts, lv, kr, root, ix, 0);
      }
    }
  }

  lemma {:induction false} NoneBelow(ts: Tables, root: nat, ix: seq<nat>, hi: nat, lo: nat)
    requires Shape(ts) && IsPath(ix) && lo <= hi <= 3
    requires TableAt(ts, root, ix, hi).None?
    ensures TableAt(ts, root, ix, lo).None?
    decreases hi - lo
  {
    if lo < hi {
      NoneBelow(ts, root, ix, hi - 1, lo);
    }
  }

  /** A fresh copy of the kernel root is a root without user bindings. */
  lemma {:induction false} NewRoot(ts: Tables, lv: map<nat, nat>, kr: seq<Pte>, t: nat)
    requires Tree(ts, lv, kr) && t in ts && t !in lv
    requires forall i :: 0 <= i < 256 ==> kr[i] == EMPTY
    ensures var ts' := ts[t := kr];
            && Tree(ts', lv[t := 3], kr)
            && (forall ix :: UserPath(ix) ==> Lookup(ts', t, ix).None?)
            && (forall root, ix :: IsRootTable(lv, root) && UserPath(ix) ==> Lookup(ts', root, ix) == Lookup(ts, root, ix))
  {
    var ts', lv' := ts[t := kr], lv[t := 3];
    assert forall i :: 0 <= i < 256 ==> ts'[t][i] == EMPTY;
    assert forall i :: !Inner(ts', lv', t, i);
    assert forall u, i :: Inner(ts', lv', u, i) ==> u != t && Inner(ts, lv, u, i) && ts'[u] == ts[u];
    forall ix | UserPath(ix)
      ensures Lookup(ts', t, ix).None?
    {
      assert TableAt(ts', t, ix, 2).None?;
      NoneBelow(ts', t, ix, 2, 0);
    }
    forall root, ix | IsRootTable(lv, root) && UserPath(ix)
      ensures Lookup(ts', root, ix) == Lookup(ts, root, ix)
    {
      OutsideLookup(ts, lv, kr, t, kr, root, ix);
    }
  }

  // ---------------------------------------------------------------- the hardware's view

  /** What the translation algorithm answers: a physical address with the flags of the leaf
      that gave it, or a page fault. */
  datatype Translation = Fault | Hit(pa: nat, flags: nat)

  /** What a program in user mode does with an address. */
  datatype Access = Loading | Storing | Fetching

  predicate MayRead(flags: nat) { flags / 2 % 2 == 1 }
  predicate MayWrite(flags: nat) { flags / 4 % 2 == 1 }
  predicate MayExecute(flags: nat) { flags / 8 % 2 == 1 }
  predicate ForUser(flags: nat) { flags / 16 % 2 == 1 }

  predicate Permits(flags: nat, how: Access)
  {
    match how
    case Loading => MayRead(flags)
    case Storing => MayWrite(flags)
    case Fetching => MayExecute(flags)
  }

  /** The accessed bit, and for a store the dirty bit, is set; the hardware sets them itself, or faults. */
  predicate Marked(flags: nat, how: Access) { flags / 64 % 2 == 1 && (how.Storing? ==> flags / 128 % 2 == 1) }

  function LeafSize(i: nat): (size: nat)
    ensures size > 0
  {
    if i == 0 then 0x1000 else if i == 1 then 0x20_0000 else if i == 2 then 0x4000_0000 else 0x80_0000_0000
  }

  /** Steps 5 to 8 of the algorithm, for a leaf found at level i: user mode may use it in this way; above
      level 0 it is a superpage and must be aligned to its size; and it is marked, or `marks` says that the
      hardware does that. */
  function LeafHit(pte: Pte, vaddr: nat, i: nat, how: Access, marks: bool): (r: Translation)
  {
    if !Permits(pte.flags, how) || !ForUser(pte.flags) || pte.addr % LeafSize(i) != 0 || !(marks || Marked(pte.flags, how)) then Fault
    else Hit(pte.addr + vaddr % LeafSize(i), pte.flags)
  }

  /** Steps 2 to 8 of the algorithm from the table `a` at level i: invalid and reserved
      encodings fault, readable or executable entries are leaves, the rest are pointers. */
  function TranslateFrom(ts: Tables, a: nat, vaddr: nat, i: nat, how: Access, marks: bool): (r: Translation)
    requires Shape(ts) && i <= 3
    decreases i
  {
    if a !in ts then Fault
    else
      var pte := ts[a][Vpn(vaddr, i)];
      if !pte.Valid() || (!MayRead(pte.flags) && MayWrite(pte.flags)) then Fault
      else if MayRead(pte.flags) || MayExecute(pte.flags) then
        LeafHit(pte, vaddr, i, how, marks)
      else if i == 0 then Fault
      else TranslateFrom(ts, pte.addr, vaddr, i - 1, how, marks)
  }

  /** Translation of a 64-bit virtual address for user mode; bits 63 to 48 must repeat bit 47. */
  function Translate(ts: Tables, root: nat, vaddr: nat, how: Access, marks: bool): (r: Translation)
    requires Shape(ts)
  {
    if 0x8000_0000_0000 <= vaddr < WORD - 0x8000_0000_0000 then Fault
    else TranslateFrom(ts, root, vaddr, 3, how, marks)
  }

  /** Flags with which user mode can use a mapped page in this way. */
  predicate Grants(flags: nat, how: Access, marks: bool)
  {
    Permits(flags, how) && ForUser(flags) && (MayWrite(flags) ==> MayRead(flags)) && (marks || Marked(flags, how))
  }

  /** The right to an access, as a program asks for it in the Unix way (4 read, 2 write, 1 execute). */
  predicate Asked(asked: nat, how: Access)
  {
    match how
    case Loading => asked / 4 % 2 == 1
    case Storing => asked / 2 % 2 == 1
    case Fetching => asked % 2 == 1
  }

  lemma {:induction false} RightsAsked(frame: nat, asked: nat)
    ensures var f := PageEntry(frame, PAGE_U + UserFlags(asked)).flags;
            && (MayRead(f) <==> asked / 4 % 2 == 1) && (MayWrite(f) <==> asked / 2 % 2 == 1)
            && (MayExecute(f) <==> asked % 2 == 1) && ForUser(f) && f % 2 == 1 && f < 64
  {
  }

  /** The kernel marks no page accessed.  So user mode has, of a page mapped with the rights that a program
      asked for, exactly those, if the hardware marks pages itself and writing was not asked for without
      reading. */
  lemma {:induction false} RightsGranted(frame: nat, asked: nat, how: Access, marks: bool)
    ensures Grants(PageEntry(frame, PAGE_U + UserFlags(asked)).flags, how, marks) <==>
            marks && Asked(asked, how) && (asked / 2 % 2 == 1 ==> asked / 4 % 2 == 1)
  {
    RightsAsked(frame, asked);
  }

  /** Every entry points to a page. */
  ghost predicate EntriesAligned(ts: Tables)
    requires Shape(ts)
  {
    forall t, i :: t in ts && 0 <= i < 512 ==> ts[t][i].addr % 4096 == 0
  }

  /** The hardware answers every access of user mode to the lower half from the plain map: with the bound
      frame, if the flags grant the access, and otherwise with a fault. */
  lemma {:induction false} HardwareAgrees(ts: Tables, lv: map<nat, nat>, kr: seq<Pte>, root: nat, vaddr: nat, how: Access, marks: bool)
    requires Tree(ts, lv, kr) && IsRootTable(lv, root) && vaddr < 0x8000_0000_0000 && EntriesAligned(ts)
    ensures UserHalf(vaddr)
    ensures Translate(ts, root, vaddr, how, marks) == LeafAnswer(Lookup(ts, root, Indices(vaddr)), vaddr % 4096, how, marks)
  {
    LowHalfIsUser(vaddr);
    HardwareDescends(ts, lv, kr, root, Indices(vaddr), vaddr, 3, how, marks);
  }

  lemma {:induction false} LowHalfIsUser(vaddr: nat)
    requires vaddr < 0x8000_0000_0000
    ensures UserHalf(vaddr)
  {
  }

  /** What both sides answer from the leaf entry. */
  function LeafAnswer(b: Option<Pte>, offset: nat, how: Access, marks: bool): (r: Translation)
  {
    if b.Some? && Grants(b.value.flags, how, marks) then Hit(b.value.addr + offset, b.value.flags) else Fault
  }

  lemma {:induction false} HardwareDescends(ts: Tables, lv: map<nat, nat>, kr: seq<Pte>, root: nat, ix: seq<nat>, vaddr: nat, level: nat,
                                            how: Access, marks: bool)
    requires Tree(ts, lv, kr) && IsRootTable(lv, root) && UserPath(ix) && level <= 3 && EntriesAligned(ts)
    requires forall l :: 0 <= l <= 3 ==> ix[l] == Vpn(vaddr, l)
    requires TableAt(ts, root, ix, level).Some?
    ensures TranslateFrom(ts, TableAt(ts, root, ix, level).value, vaddr, level, how, marks) ==
            LeafAnswer(Lookup(ts, root, ix), vaddr % 4096, how, marks)
    decreases level
  {
    var t := TableAt(ts, root, ix, level).value;
    var e := ts[t][ix[level]];
    if level == 0 {
      LeafStep(ts, t, vaddr, ix[0], how, marks);
    } else {
      LevelOf(ts, lv, kr, root, ix, level);
      LevelOf(ts, lv, kr, root, ix, level - 1);
      if e.Valid() {
        assert Inner(ts, lv, t, ix[level]);
        PointerStep(ts, t, vaddr, level, ix[level], how, marks);
        HardwareDescends(ts, lv, kr, root, ix, vaddr, level - 1, how, marks);
      } else {
        NoneBelow(ts, root, ix, level - 1, 0);
      }
    }
  }

  lemma {:induction false} PointerStep(ts: Tables, a: nat, vaddr: nat, i: nat, x: nat, how: Access, marks: bool)
    requires Shape(ts) && a in ts && 0 < i <= 3 && x == Vpn(vaddr, i) && ts[a][x].flags == PAGE_V
    ensures TranslateFrom(ts, a, vaddr, i, how, marks) == TranslateFrom(ts, ts[a][x].addr, vaddr, i - 1, how, marks)
  {
  }

  lemma {:induction false} LeafStep(ts: Tables, a: nat, vaddr: nat, x: nat, how: Access, marks: bool)
    requires Shape(ts) && a in ts && x == Vpn(vaddr, 0) && ts[a][x].addr % 4096 == 0
    ensures TranslateFrom(ts, a, vaddr, 0, how, marks) ==
            LeafAnswer(if ts[a][x].Valid() then Some(ts[a][x]) else None, vaddr % 4096, how, marks)
  {
  }
}
