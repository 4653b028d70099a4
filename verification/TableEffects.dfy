/**
 What storing into a table does when the kernel has not checked which table it is.  The
 kernel walks from whatever table a capability names and links whatever table a capability
 designates; it checks neither that the walk starts at a root nor that the table is not
 linked already.  For each store the results here say exactly when the tables still form a
 tree, and what becomes of the plain map of bindings.
 */
module TableEffects {
  import opened Kinds
  import opened Packing
  import opened PageTables

  /** The user path `ix` of a root leads to t at level l. */
  ghost predicate Way(ts: Tables, lv: map<nat, nat>, root: nat, ix: seq<nat>, l: nat, t: nat)
    requires Shape(ts)
  {
    IsRootTable(lv, root) && UserPath(ix) && l <= 3 && TableAt(ts, root, ix, l) == Some(t)
  }

  ghost predicate Hangs(ts: Tables, lv: map<nat, nat>, t: nat)
    requires Shape(ts)
  {
    t in lv && exists root, ix :: Way(ts, lv, root, ix, lv[t], t)
  }

  ghost predicate AllHang(ts: Tables, lv: map<nat, nat>)
    requires Shape(ts)
  {
    forall t {:trigger Hangs(ts, lv, t)} :: t in lv ==> Hangs(ts, lv, t)
  }

  /** The tables form a tree, and every table that has a level hangs in it. */
  ghost predicate Standing(ts: Tables, lv: map<nat, nat>, kr: seq<Pte>) { Tree(ts, lv, kr) && AllHang(ts, lv) }

  lemma {:induction false} AWay(ts: Tables, lv: map<nat, nat>, kr: seq<Pte>, t: nat) returns (root: nat, ix: seq<nat>)
    requires Standing(ts, lv, kr) && t in lv
    ensures Way(ts, lv, root, ix, lv[t], t)
  {
    assert Hangs(ts, lv, t);
    root, ix :| Way(ts, lv, root, ix, lv[t], t);
  }

  ghost predicate SameRoots(lv: map<nat, nat>, lv': map<nat, nat>)
  {
    forall t :: IsRootTable(lv, t) <==> IsRootTable(lv', t)
  }

  /** With the roots of `lv` the tables are a tree, whatever levels they are given. */
  ghost predicate SomeTree(ts: Tables, lv: map<nat, nat>, kr: seq<Pte>)
  {
    exists lv' :: SameRoots(lv, lv') && Tree(ts, lv', kr)
  }

  /** Where a table is found decides its level. */
  lemma {:induction false} LevelForced(ts: Tables, lv: map<nat, nat>, lv': map<nat, nat>, kr: seq<Pte>, root: nat, ix: seq<nat>, l: nat, t: nat)
    requires Tree(ts, lv', kr) && SameRoots(lv, lv') && Way(ts, lv, root, ix, l, t)
    ensures t in lv' && lv'[t] == l && Way(ts, lv', root, ix, l, t)
  {
    LevelOf(ts, lv', kr, root, ix, l);
  }

  // ---------------------------------------------------------------- the level map can be renewed

  lemma {:induction false} SameTablesHang(ts: Tables, ts': Tables, lv: map<nat, nat>)
    requires Shape(ts) && Shape(ts') && AllHang(ts, lv) && forall t :: t in lv ==> lv[t] <= 3
    requires forall root, ix, l :: IsRootTable(lv, root) && UserPath(ix) && 0 <= l <= 3 && TableAt(ts, root, ix, l).Some? ==>
                                     TableAt(ts', root, ix, l) == TableAt(ts, root, ix, l)
    ensures AllHang(ts', lv)
  {
    forall t | t in lv
      ensures Hangs(ts', lv, t)
    {
      assert Hangs(ts, lv, t);
      var root, ix :| Way(ts, lv, root, ix, lv[t], t);
      assert Way(ts', lv, root, ix, lv[t], t);
    }
  }

  // ---------------------------------------------------------------- storing outside the tree

  /** Changing a table that is in no tree changes no tree. */
  lemma {:induction false} OutsideStands(ts: Tables, lv: map<nat, nat>, kr: seq<Pte>, t: nat, s: seq<Pte>)
    requires Standing(ts, lv, kr) && t !in lv && |s| == 512
    ensures Standing(ts[t := s], lv, kr) && Bindings(ts[t := s], lv) == Bindings(ts, lv)
  {
    OutsideKeepsTree(ts, lv, kr, t, s);
    forall root, ix, l | IsRootTable(lv, root) && UserPath(ix) && 0 <= l <= 3
      ensures TableAt(ts[t := s], root, ix, l) == TableAt(ts, root, ix, l)
    {
      OutsideOffPath(ts, lv, kr, t, s, root, ix, l);
    }
    SameTablesHang(ts, ts[t := s], lv);
    forall root, ix | IsRootTable(lv, root) && UserPath(ix)
      ensures Lookup(ts[t := s], root, ix) == Lookup(ts, root, ix)
    {
      OutsideLookup(ts, lv, kr, t, s, root, ix);
    }
  }

  // ---------------------------------------------------------------- one binding changes

  /** Lookups agree everywhere but at (root, ix), where there is now v. */
  ghost predicate OneChange(ts: Tables, ts': Tables, lv: map<nat, nat>, root: nat, ix: seq<nat>, v: Option<Pte>)
    requires Shape(ts) && Shape(ts')
  {
    forall root', ix' :: IsRootTable(lv, root') && UserPath(ix') ==>
      Lookup(ts', root', ix') == if root' == root && ix' == ix then v else Lookup(ts, root', ix')
  }

  /** A map with one binding set or removed. */
  ghost function Changed(m: imap<(nat, seq<nat>), Pte>, k: (nat, seq<nat>), v: Option<Pte>): (m': imap<(nat, seq<nat>), Pte>)
  {
    match v case Some(e) => m[k := e] case None => m - {k}
  }

  lemma {:induction false} BindingAt(ts: Tables, lv: map<nat, nat>, k: (nat, seq<nat>))
    requires Shape(ts)
    ensures k in Bindings(ts, lv) <==> IsRootTable(lv, k.0) && UserPath(k.1) && Lookup(ts, k.0, k.1).Some?
    ensures k in Bindings(ts, lv) ==> Bindings(ts, lv)[k] == Lookup(ts, k.0, k.1).value
  {
  }

  lemma {:induction false} ChangedIs(m: imap<(nat, seq<nat>), Pte>, m': imap<(nat, seq<nat>), Pte>, k: (nat, seq<nat>), v: Option<Pte>)
    requires forall q :: q in m' <==> if q == k then v.Some? else q in m
    requires forall q :: q in m' ==> m'[q] == if q == k then v.value else m[q]
    ensures m' == Changed(m, k, v)
  {
  }

  lemma {:induction false} BindingsChange(ts: Tables, ts': Tables, lv: map<nat, nat>, root: nat, ix: seq<nat>, v: Option<Pte>)
    requires Shape(ts) && Shape(ts') && IsRootTable(lv, root) && UserPath(ix)
    requires OneChange(ts, ts', lv, root, ix, v)
    ensures Bindings(ts', lv) == Changed(Bindings(ts, lv), (root, ix), v)
  {
    var m, m' := Bindings(ts, lv), Bindings(ts', lv);
    forall q
      ensures q in m' <==> if q == (root, ix) then v.Some? else q in m
      ensures q in m' ==> m'[q] == if q == (root, ix) then v.value else m[q]
    {
      BindingAt(ts, lv, q);
      BindingAt(ts', lv, q);
    }
    ChangedIs(m, m', (root, ix), v);
  }

  lemma {:induction false} LeafChange(ts: Tables, lv: map<nat, nat>, kr: seq<Pte>, root: nat, ix: seq<nat>, t: nat, e: Pte)
    requires Standing(ts, lv, kr) && Way(ts, lv, root, ix, 0, t) && (e.Valid() || e == EMPTY)
    ensures Tree(Store(ts, t, ix[0], e), lv, kr)
    ensures Bindings(Store(ts, t, ix[0], e), lv) == Changed(Bindings(ts, lv), (root, ix), if e.Valid() then Some(e) else None)
  {
    StoreLeaf(ts, lv, kr, root, ix, e);
    BindingsChange(ts, Store(ts, t, ix[0], e), lv, root, ix, if e.Valid() then Some(e) else None);
  }

  lemma {:induction false} LeafStands(ts: Tables, lv: map<nat, nat>, kr: seq<Pte>, t: nat, i: nat, e: Pte)
    requires Standing(ts, lv, kr) && t in lv && lv[t] == 0 && i < 512 && (e.Valid() || e == EMPTY)
    ensures Standing(Store(ts, t, i, e), lv, kr)
  {
    LeafKeepsTree(ts, lv, kr, t, i, e);
    forall root, ix, l | IsRootTable(lv, root) && UserPath(ix) && 0 <= l <= 3
      ensures TableAt(Store(ts, t, i, e), root, ix, l) == TableAt(ts, root, ix, l)
    {
      LeafKeepsTables(ts, lv, kr, t, i, e, root, ix, l);
    }
    SameTablesHang(ts, Store(ts, t, i, e), lv);
  }

  /** Entry i of the table p becomes e, or is cleared if e is empty.  Outside the tree nothing is bound
      otherwise; in a table of level 0 exactly the binding of the one way to the entry changes. */
  ghost predicate LeafEffect(ts: Tables, lv: map<nat, nat>, kr: seq<Pte>, p: nat, i: nat, e: Pte)
    requires Shape(ts) && p in ts && i < 512
  {
    var ts' := Store(ts, p, i, e);
    && (p !in lv || lv[p] == 0 ==> Standing(ts', lv, kr))
    && (p !in lv ==> Bindings(ts', lv) == Bindings(ts, lv))
    && (p in lv && lv[p] == 0 ==>
          && (exists root, ix :: Way(ts, lv, root, ix, 0, p) && ix[0] == i)
          && (forall root, ix :: Way(ts, lv, root, ix, 0, p) && ix[0] == i ==>
                Bindings(ts', lv) == Changed(Bindings(ts, lv), (root, ix), if e.Valid() then Some(e) else None)))
  }

  lemma {:induction false} LeafEffectHolds(ts: Tables, lv: map<nat, nat>, kr: seq<Pte>, p: nat, i: nat, e: Pte)
    requires Standing(ts, lv, kr) && p in ts && i < 512 && (e.Valid() || e == EMPTY)
    ensures LeafEffect(ts, lv, kr, p, i, e)
  {
    if p !in lv {
      OutsideStands(ts, lv, kr, p, ts[p][i := e]);
    } else if lv[p] == 0 {
      LeafStands(ts, lv, kr, p, i, e);
      SomeWay(ts, lv, p, i);
      forall root, ix | Way(ts, lv, root, ix, 0, p) && ix[0] == i
        ensures Bindings(Store(ts, p, i, e), lv) == Changed(Bindings(ts, lv), (root, ix), if e.Valid() then Some(e) else None)
      {
        LeafChange(ts, lv, kr, root, ix, p, e);
      }
    }
  }

  /** Some way leads to each entry of a table of level 0. */
  lemma {:induction false} SomeWay(ts: Tables, lv: map<nat, nat>, p: nat, i: nat)
    requires Shape(ts) && Hangs(ts, lv, p) && lv[p] == 0 && i < 512
    ensures exists root, ix :: Way(ts, lv, root, ix, 0, p) && ix[0] == i
  {
    var root, ix :| Way(ts, lv, root, ix, 0, p);
    WayAside(ts, lv, root, ix, 0, p, i);
  }

  lemma {:induction false} WayAside(ts: Tables, lv: map<nat, nat>, root: nat, ix: seq<nat>, l: nat, t: nat, i: nat)
    requires Shape(ts) && Way(ts, lv, root, ix, l, t) && i < Width(l)
    ensures Way(ts, lv, root, ix[l := i], l, t)
  {
    OtherIndex(ts, root, ix, l, i, l);
  }

  // ---------------------------------------------------------------- when no tree is left

  /** What hangs in the tree goes on hanging there when an entry is written that was not valid, so every
      level map for the new tables gives it the level it had. */
  lemma {:induction false} StillForced(ts: Tables, lv: map<nat, nat>, kr: seq<Pte>, p: nat, i: nat, e: Pte, lv': map<nat, nat>, t: nat)
    requires Standing(ts, lv, kr) && p in ts && i < 512 && !ts[p][i].Valid() && t in lv
    requires SameRoots(lv, lv') && Tree(Store(ts, p, i, e), lv', kr)
    ensures t in lv' && lv'[t] == lv[t]
  {
    var root, ix := AWay(ts, lv, kr, t);
    LinkKeepsTables(ts, p, i, e, root, ix, lv[t]);
    LevelForced(Store(ts, p, i, e), lv, lv', kr, root, ix, lv[t], t);
  }

  /** What a tree holds above level 0. */
  lemma {:induction false} EntryAbove(ts: Tables, lv: map<nat, nat>, kr: seq<Pte>, p: nat, i: nat)
    requires Tree(ts, lv, kr) && p in lv && lv[p] > 0 && i < 512 && ts[p][i].Valid()
    ensures i < Width(lv[p]) ==> ts[p][i].flags == PAGE_V && ts[p][i].addr in lv && lv[ts[p][i].addr] == lv[p] - 1
    ensures i >= Width(lv[p]) ==> ts[p][i] == kr[i]
  {
    assert i < Width(lv[p]) ==> Inner(ts, lv, p, i);
  }

  /** In a tree that has the old levels of what hung in it, a new entry above level 0 links a table; the
      kernel half of a root has no new entry. */
  lemma {:induction false} NewEntryAbove(ts: Tables, lv: map<nat, nat>, kr: seq<Pte>, p: nat, i: nat, e: Pte, lv': map<nat, nat>)
    requires Standing(ts, lv, kr) && p in lv && lv[p] > 0 && i < 512 && !ts[p][i].Valid() && e.Valid()
    requires SameRoots(lv, lv') && Tree(Store(ts, p, i, e), lv', kr)
    ensures i < Width(lv[p]) && e.flags == PAGE_V && e.addr in lv' && lv'[e.addr] == lv[p] - 1
  {
    StillForced(ts, lv, kr, p, i, e, lv', p);
    EntryAbove(Store(ts, p, i, e), lv', kr, p, i);
  }

  /** So a page stored above level 0 leaves no tree. */
  lemma {:induction false} PageAbove(ts: Tables, lv: map<nat, nat>, kr: seq<Pte>, p: nat, i: nat, e: Pte)
    requires Standing(ts, lv, kr) && p in lv && lv[p] > 0 && i < 512 && !ts[p][i].Valid() && e.Valid() && e.flags != PAGE_V
    ensures !SomeTree(Store(ts, p, i, e), lv, kr)
  {
    forall lv' | SameRoots(lv, lv') && Tree(Store(ts, p, i, e), lv', kr)
      ensures false
    {
      NewEntryAbove(ts, lv, kr, p, i, e, lv');
    }
  }

  /** Storing a page in a free entry keeps a tree exactly outside the tree and at level 0. */
  lemma {:induction false} PageKeepsTreeExactly(ts: Tables, lv: map<nat, nat>, kr: seq<Pte>, p: nat, i: nat, e: Pte)
    requires Standing(ts, lv, kr) && p in ts && i < 512 && !ts[p][i].Valid() && e.Valid() && e.flags != PAGE_V
    ensures SomeTree(Store(ts, p, i, e), lv, kr) <==> p !in lv || lv[p] == 0
    ensures LeafEffect(ts, lv, kr, p, i, e)
  {
    LeafEffectHolds(ts, lv, kr, p, i, e);
    if p in lv && lv[p] > 0 {
      PageAbove(ts, lv, kr, p, i, e);
    } else {
      assert SameRoots(lv, lv);
    }
  }

  // ---------------------------------------------------------------- linking a table

  /** The table from which the way comes to t. */
  lemma {:induction false} Parent(ts: Tables, lv: map<nat, nat>, kr: seq<Pte>, root: nat, ix: seq<nat>, t: nat) returns (u: nat)
    requires Tree(ts, lv, kr) && t in lv && lv[t] < 3 && Way(ts, lv, root, ix, lv[t], t)
    ensures u in lv && lv[u] == lv[t] + 1 && Inner(ts, lv, u, ix[lv[t] + 1]) && ts[u][ix[lv[t] + 1]].addr == t
  {
    LevelOf(ts, lv, kr, root, ix, lv[t] + 1);
    LevelOf(ts, lv, kr, root, ix, lv[t]);
    u := TableAt(ts, root, ix, lv[t] + 1).value;
  }

  lemma {:induction false} TwoParents(ts: Tables, lv: map<nat, nat>, kr: seq<Pte>, u: nat, j: nat, p: nat, i: nat)
    requires Shape(ts) && Inner(ts, lv, u, j) && Inner(ts, lv, p, i) && ts[u][j].addr == ts[p][i].addr && (u != p || j != i)
    ensures !Tree(ts, lv, kr)
  {
  }

  lemma {:induction false} StillInner(ts: Tables, lv: map<nat, nat>, p: nat, i: nat, e: Pte, lv': map<nat, nat>, u: nat, j: nat)
    requires Shape(ts) && p in ts && i < 512 && !ts[p][i].Valid() && Inner(ts, lv, u, j) && u in lv' && lv'[u] == lv[u]
    ensures Inner(Store(ts, p, i, e), lv', u, j) && Store(ts, p, i, e)[u][j] == ts[u][j] && (u != p || j != i)
  {
  }

  /** A second link to a table that hangs in the tree leaves no tree. */
  lemma {:induction false} SecondLink(ts: Tables, lv: map<nat, nat>, kr: seq<Pte>, p: nat, i: nat, t: nat, lv': map<nat, nat>)
    requires Standing(ts, lv, kr) && p in lv && lv[p] > 0 && i < 512 && !ts[p][i].Valid() && t in lv && SameRoots(lv, lv')
    ensures !Tree(Store(ts, p, i, TableEntry(t)), lv', kr)
  {
    var ts', e := Store(ts, p, i, TableEntry(t)), TableEntry(t);
    if Tree(ts', lv', kr) {
      NewEntryAbove(ts, lv, kr, p, i, e, lv');
      StillForced(ts, lv, kr, p, i, e, lv', p);
      StillForced(ts, lv, kr, p, i, e, lv', t);
      var root, ix := AWay(ts, lv, kr, t);
      var u := Parent(ts, lv, kr, root, ix, t);
      StillForced(ts, lv, kr, p, i, e, lv', u);
      StillInner(ts, lv, p, i, e, lv', u, ix[lv[t] + 1]);
      TwoParents(ts', lv', kr, u, ix[lv[t] + 1], p, i);
    }
  }

  /** A user entry above level 0, for a zero table that hangs nowhere. */
  ghost predicate ForTable(ts: Tables, lv: map<nat, nat>, p: nat, i: nat, t: nat)
  {
    p in lv && lv[p] > 0 && i < Width(lv[p]) && t in ts && t !in lv && Zeroed(ts[t])
  }

  ghost function LinkedLevels(ts: Tables, lv: map<nat, nat>, p: nat, i: nat, t: nat): (lv': map<nat, nat>)
  {
    if ForTable(ts, lv, p, i, t) then lv[t := lv[p] - 1] else lv
  }

  /** What linking t in entry i of p comes to, if that entry was not valid: outside the tree, and in a
      table of level 0, it is like storing a page; above, a zero table that hangs nowhere changes no
      binding, and one that hangs in the tree, or the kernel half, leaves no tree. */
  ghost predicate LinkEffect(ts: Tables, lv: map<nat, nat>, kr: seq<Pte>, p: nat, i: nat, t: nat)
    requires Shape(ts) && p in ts && i < 512
  {
    var ts', lv' := Store(ts, p, i, TableEntry(t)), LinkedLevels(ts, lv, p, i, t);
    if p !in lv || lv[p] == 0 then LeafEffect(ts, lv, kr, p, i, TableEntry(t))
    else if ForTable(ts, lv, p, i, t) then Standing(ts', lv', kr) && Bindings(ts', lv') == Bindings(ts, lv)
    else i >= Width(lv[p]) || t !in ts || t in lv ==> !SomeTree(ts', lv, kr)
  }

  lemma {:induction false} BadLink(ts: Tables, lv: map<nat, nat>, kr: seq<Pte>, p: nat, i: nat, t: nat)
    requires Standing(ts, lv, kr) && p in lv && lv[p] > 0 && i < 512 && !ts[p][i].Valid()
    requires i >= Width(lv[p]) || t !in ts || t in lv
    ensures !SomeTree(Store(ts, p, i, TableEntry(t)), lv, kr)
  {
    forall lv' | SameRoots(lv, lv')
      ensures !Tree(Store(ts, p, i, TableEntry(t)), lv', kr)
    {
      if t in lv {
        SecondLink(ts, lv, kr, p, i, t, lv');
      } else if Tree(Store(ts, p, i, TableEntry(t)), lv', kr) {
        NewEntryAbove(ts, lv, kr, p, i, TableEntry(t), lv');
      }
    }
  }

  lemma {:induction false} LinkEffectHolds(ts: Tables, lv: map<nat, nat>, kr: seq<Pte>, p: nat, i: nat, t: nat)
    requires Standing(ts, lv, kr) && p in ts && i < 512 && !ts[p][i].Valid()
    ensures LinkEffect(ts, lv, kr, p, i, t)
  {
    if p !in lv || lv[p] == 0 {
      LeafEffectHolds(ts, lv, kr, p, i, TableEntry(t));
    } else if ForTable(ts, lv, p, i, t) {
      GoodLink(ts, lv, kr, p, i, t);
    } else if i >= Width(lv[p]) || t !in ts || t in lv {
      BadLink(ts, lv, kr, p, i, t);
    }
  }

  lemma {:induction false} GoodLink(ts: Tables, lv: map<nat, nat>, kr: seq<Pte>, p: nat, i: nat, t: nat)
    requires Standing(ts, lv, kr) && p in lv && lv[p] > 0 && i < Width(lv[p]) && !ts[p][i].Valid()
    requires t in ts && t !in lv && Zeroed(ts[t])
    ensures var ts', lv' := Store(ts, p, i, TableEntry(t)), lv[t := lv[p] - 1];
            Standing(ts', lv', kr) && Bindings(ts', lv') == Bindings(ts, lv)
  {
    var ts', lv' := Store(ts, p, i, TableEntry(t)), lv[t := lv[p] - 1];
    LinkKeepsTree(ts, lv, kr, p, i, t);
    LinkHangs(ts, lv, kr, p, i, t);
    forall root, ix | IsRootTable(lv, root) && UserPath(ix)
      ensures Lookup(ts', root, ix) == Lookup(ts, root, ix)
    {
      LinkKeepsLookup(ts, lv, kr, p, i, t, root, ix);
    }
    SameLookups(ts, lv, ts', lv');
  }

  lemma {:induction false} SameLookups(ts: Tables, lv: map<nat, nat>, ts': Tables, lv': map<nat, nat>)
    requires Shape(ts) && Shape(ts') && SameRoots(lv, lv')
    requires forall root, ix :: IsRootTable(lv, root) && UserPath(ix) ==> Lookup(ts', root, ix) == Lookup(ts, root, ix)
    ensures Bindings(ts', lv') == Bindings(ts, lv)
  {
  }

  lemma {:induction false} LinkHangs(ts: Tables, lv: map<nat, nat>, kr: seq<Pte>, p: nat, i: nat, t: nat)
    requires Standing(ts, lv, kr) && p in lv && lv[p] > 0 && i < Width(lv[p]) && !ts[p][i].Valid() && t in ts && t !in lv
    ensures var ts', lv' := Store(ts, p, i, TableEntry(t)), lv[t := lv[p] - 1]; AllHang(ts', lv')
  {
    forall u | u in lv
      ensures Hangs(Store(ts, p, i, TableEntry(t)), lv[t := lv[p] - 1], u)
    {
      GoesOnHanging(ts, lv, p, i, t, u);
    }
    NowHangs(ts, lv, p, i, t);
  }

  lemma {:induction false} GoesOnHanging(ts: Tables, lv: map<nat, nat>, p: nat, i: nat, t: nat, u: nat)
    requires Shape(ts) && p in lv && p in ts && lv[p] > 0 && i < 512 && !ts[p][i].Valid() && t !in lv && Hangs(ts, lv, u)
    ensures Hangs(Store(ts, p, i, TableEntry(t)), lv[t := lv[p] - 1], u)
  {
    var root, ix :| Way(ts, lv, root, ix, lv[u], u);
    LinkKeepsTables(ts, p, i, TableEntry(t), root, ix, lv[u]);
    assert Way(Store(ts, p, i, TableEntry(t)), lv[t := lv[p] - 1], root, ix, lv[u], u);
  }

  lemma {:induction false} NowHangs(ts: Tables, lv: map<nat, nat>, p: nat, i: nat, t: nat)
    requires Shape(ts) && Hangs(ts, lv, p) && p in ts && 0 < lv[p] <= 3 && i < Width(lv[p]) && !ts[p][i].Valid() && t in ts && t !in lv
    ensures Hangs(Store(ts, p, i, TableEntry(t)), lv[t := lv[p] - 1], t)
  {
    var root, ix :| Way(ts, lv, root, ix, lv[p], p);
    NewWay(ts, lv, p, i, t, root, ix);
    var lv' := lv[t := lv[p] - 1];
    assert Way(Store(ts, p, i, TableEntry(t)), lv', root, ix[lv[p] := i], lv'[t], t);
  }

  /** The way to p goes on to t. */
  lemma {:induction false} NewWay(ts: Tables, lv: map<nat, nat>, p: nat, i: nat, t: nat, root: nat, ix: seq<nat>)
    requires Shape(ts) && p in lv && 0 < lv[p] <= 3 && i < Width(lv[p]) && t in ts && t !in lv && Way(ts, lv, root, ix, lv[p], p) && !ts[p][i].Valid()
    ensures Way(Store(ts, p, i, TableEntry(t)), lv[t := lv[p] - 1], root, ix[lv[p] := i], lv[p] - 1, t)
  {
    var ix', l := ix[lv[p] := i], lv[p];
    OtherIndex(ts, root, ix, l, i, l);
    LinkKeepsTables(ts, p, i, TableEntry(t), root, ix', l);
  }

  /** Indices up to level l select no table of level l. */
  lemma {:induction false} OtherIndex(ts: Tables, root: nat, ix: seq<nat>, k: nat, i: nat, l: nat)
    requires Shape(ts) && IsPath(ix) && i < 512 && k <= l <= 3
    ensures TableAt(ts, root, ix[k := i], l) == TableAt(ts, root, ix, l)
    decreases 3 - l
  {
    if l < 3 { OtherIndex(ts, root, ix, k, i, l + 1); }
  }

  /** Linking a zero table in a free user entry above level 0 keeps a tree exactly if it hangs nowhere. */
  lemma {:induction false} LinkKeepsTreeExactly(ts: Tables, lv: map<nat, nat>, kr: seq<Pte>, p: nat, i: nat, t: nat)
    requires Standing(ts, lv, kr) && p in lv && lv[p] > 0 && i < Width(lv[p]) && !ts[p][i].Valid()
    requires t in ts && Zeroed(ts[t])
    ensures SomeTree(Store(ts, p, i, TableEntry(t)), lv, kr) <==> t !in lv
  {
    if t in lv {
      BadLink(ts, lv, kr, p, i, t);
    } else {
      GoodLink(ts, lv, kr, p, i, t);
      assert SameRoots(lv, lv[t := lv[p] - 1]);
    }
  }

  /** The same table mapped through two copies of its capability: the first link keeps the tree, and after
      the second there is none. */
  lemma {:induction false} MappedTwice(ts: Tables, lv: map<nat, nat>, kr: seq<Pte>, p: nat, i: nat, p': nat, i': nat, t: nat)
    requires Standing(ts, lv, kr) && t in ts && t !in lv && Zeroed(ts[t]) && (p != p' || i != i')
    requires p in lv && lv[p] > 0 && i < Width(lv[p]) && !ts[p][i].Valid()
    requires p' in lv && lv[p'] > 0 && i' < Width(lv[p']) && !ts[p'][i'].Valid()
    ensures var once := Store(ts, p, i, TableEntry(t));
            Standing(once, lv[t := lv[p] - 1], kr) && !SomeTree(Store(once, p', i', TableEntry(t)), lv[t := lv[p] - 1], kr)
  {
    GoodLink(ts, lv, kr, p, i, t);
    BadLink(Store(ts, p, i, TableEntry(t)), lv[t := lv[p] - 1], kr, p', i', t);
  }

  /** A page stored in a table that two paths share is bound on both. */
  lemma {:induction false} SharedLeaf(ts: Tables, root: nat, ix: seq<nat>, root': nat, ix': seq<nat>, t: nat, e: Pte)
    requires Shape(ts) && IsPath(ix) && IsPath(ix') && ix[0] == ix'[0] && e.Valid()
    requires TableAt(ts, root, ix, 0) == TableAt(ts, root', ix', 0) == Some(t)
    requires forall l :: 0 < l <= 3 ==> TableAt(ts, root, ix, l) != Some(t) && TableAt(ts, root', ix', l) != Some(t)
    ensures Lookup(Store(ts, t, ix[0], e), root, ix) == Lookup(Store(ts, t, ix[0], e), root', ix') == Some(e)
  {
    StoreOffPath(ts, t, ix[0], e, root, ix, 0);
    StoreOffPath(ts, t, ix[0], e, root', ix', 0);
  }

  // ---------------------------------------------------------------- forgetting what hangs nowhere

  /** The levels of what hangs in the tree. */
  ghost function Kept(ts: Tables, lv: map<nat, nat>): (r: map<nat, nat>)
    requires Shape(ts)
  {
    map t | t in lv && Hangs(ts, lv, t) :: lv[t]
  }

  lemma {:induction false} KeptStands(ts: Tables, lv: map<nat, nat>, kr: seq<Pte>)
    requires Tree(ts, lv, kr)
    ensures Standing(ts, Kept(ts, lv), kr) && SameRoots(lv, Kept(ts, lv)) && Bindings(ts, Kept(ts, lv)) == Bindings(ts, lv)
  {
    var lv' := Kept(ts, lv);
    forall t
      ensures IsRootTable(lv, t) <==> IsRootTable(lv', t)
    {
      if IsRootTable(lv, t) { assert Way(ts, lv, t, [0, 0, 0, 0], 3, t); }
    }
    forall t | t in lv'
      ensures Hangs(ts, lv', t)
    {
      var root, ix :| Way(ts, lv, root, ix, lv[t], t);
      assert Way(ts, lv', root, ix, lv'[t], t);
    }
    KeptTree(ts, lv, kr);
    SameLookups(ts, lv, ts, lv');
  }

  lemma {:induction false} KeptTree(ts: Tables, lv: map<nat, nat>, kr: seq<Pte>)
    requires Tree(ts, lv, kr)
    ensures Tree(ts, Kept(ts, lv), kr)
  {
    var lv' := Kept(ts, lv);
    forall t, i | Inner(ts, lv', t, i)
      ensures Inner(ts, lv, t, i) && ts[t][i].addr in lv'
    {
      ChildHangs(ts, lv, kr, t, i);
    }
  }

  lemma {:induction false} ChildHangs(ts: Tables, lv: map<nat, nat>, kr: seq<Pte>, t: nat, i: nat)
    requires Tree(ts, lv, kr) && Hangs(ts, lv, t) && Inner(ts, lv, t, i)
    ensures Hangs(ts, lv, ts[t][i].addr)
  {
    var root, ix :| Way(ts, lv, root, ix, lv[t], t);
    WayDown(ts, lv, root, ix, lv[t], t, i);
  }

  lemma {:induction false} WayDown(ts: Tables, lv: map<nat, nat>, root: nat, ix: seq<nat>, l: nat, t: nat, i: nat)
    requires Shape(ts) && Way(ts, lv, root, ix, l, t) && l > 0 && i < Width(l) && ts[t][i].Valid() && ts[t][i].addr in ts
    ensures Way(ts, lv, root, ix[l := i], l - 1, ts[t][i].addr)
  {
    WayAside(ts, lv, root, ix, l, t, i);
  }

  // ---------------------------------------------------------------- making a root

  /** All bindings but those of one root. */
  ghost predicate Without(m: imap<(nat, seq<nat>), Pte>, m': imap<(nat, seq<nat>), Pte>, root: nat)
  {
    && (forall k: (nat, seq<nat>) :: k in m' <==> k in m && k.0 != root)
    && (forall k: (nat, seq<nat>) :: k in m' ==> m'[k] == m[k])
  }

  ghost function RootLevels(ts: Tables, lv: map<nat, nat>, kr: seq<Pte>, t: nat): (lv': map<nat, nat>)
    requires Shape(ts) && t in ts && |kr| == 512
  {
    if t !in lv then lv[t := 3] else if lv[t] == 3 then Kept(ts[t := kr], lv) else lv
  }

  /** What copying the kernel root over the table t comes to: a table that hangs nowhere becomes a root
      without bindings, a root loses its bindings, and a table below a root leaves no tree. */
  ghost predicate RootEffect(ts: Tables, lv: map<nat, nat>, kr: seq<Pte>, t: nat)
    requires Shape(ts) && t in ts && |kr| == 512
  {
    var ts', lv' := ts[t := kr], RootLevels(ts, lv, kr, t);
    if t !in lv then Standing(ts', lv', kr) && Bindings(ts', lv') == Bindings(ts, lv)
    else if lv[t] == 3 then Standing(ts', lv', kr) && SameRoots(lv, lv') && Without(Bindings(ts, lv), Bindings(ts', lv'), t)
    else !SomeTree(ts', lv[t := 3], kr)
  }

  lemma {:induction false} RootEffectHolds(ts: Tables, lv: map<nat, nat>, kr: seq<Pte>, t: nat)
    requires Standing(ts, lv, kr) && t in ts && forall i :: 0 <= i < 256 ==> kr[i] == EMPTY
    ensures RootEffect(ts, lv, kr, t)
  {
    if t !in lv {
      FreshRoot(ts, lv, kr, t);
    } else if lv[t] == 3 {
      RootEmptied(ts, lv, kr, t);
    } else {
      RootBelow(ts, lv, kr, t);
    }
  }

  lemma {:induction false} FreshRoot(ts: Tables, lv: map<nat, nat>, kr: seq<Pte>, t: nat)
    requires Standing(ts, lv, kr) && t in ts && t !in lv && forall i :: 0 <= i < 256 ==> kr[i] == EMPTY
    ensures Standing(ts[t := kr], lv[t := 3], kr) && Bindings(ts[t := kr], lv[t := 3]) == Bindings(ts, lv)
  {
    NewRoot(ts, lv, kr, t);
    forall u | u in lv
      ensures Hangs(ts[t := kr], lv[t := 3], u)
    {
      HangsBesideRoot(ts, lv, kr, t, u);
    }
    assert Way(ts[t := kr], lv[t := 3], t, [0, 0, 0, 0], 3, t);
    FreshRootBindings(ts, lv, kr, t);
  }

  lemma {:induction false} HangsBesideRoot(ts: Tables, lv: map<nat, nat>, kr: seq<Pte>, t: nat, u: nat)
    requires Tree(ts, lv, kr) && t !in lv && Hangs(ts, lv, u)
    ensures Hangs(ts[t := kr], lv[t := 3], u)
  {
    var root, ix :| Way(ts, lv, root, ix, lv[u], u);
    OutsideOffPath(ts, lv, kr, t, kr, root, ix, lv[u]);
    assert Way(ts[t := kr], lv[t := 3], root, ix, lv[u], u);
  }

  lemma {:induction false} FreshRootBindings(ts: Tables, lv: map<nat, nat>, kr: seq<Pte>, t: nat)
    requires Shape(ts) && |kr| == 512 && t !in lv && forall ix :: UserPath(ix) ==> Lookup(ts[t := kr], t, ix).None?
    requires forall root, ix :: IsRootTable(lv, root) && UserPath(ix) ==> Lookup(ts[t := kr], root, ix) == Lookup(ts, root, ix)
    ensures Bindings(ts[t := kr], lv[t := 3]) == Bindings(ts, lv)
  {
    var m, m' := Bindings(ts, lv), Bindings(ts[t := kr], lv[t := 3]);
    forall k
      ensures k in m' <==> k in m
      ensures k in m' ==> m'[k] == m[k]
    {
      BindingAt(ts, lv, k);
      BindingAt(ts[t := kr], lv[t := 3], k);
    }
  }

  /** Another way than through the first table of a path: the store leaves it alone. */
  lemma {:induction false} OtherRoot(ts: Tables, lv: map<nat, nat>, kr: seq<Pte>, t: nat, root: nat, ix: seq<nat>, l: nat)
    requires Tree(ts, lv, kr) && IsRootTable(lv, t) && IsRootTable(lv, root) && root != t && UserPath(ix) && l <= 3
    ensures TableAt(ts[t := kr], root, ix, l) == TableAt(ts, root, ix, l)
    ensures TableAt(ts, root, ix, l) != Some(t)
    decreases 3 - l
  {
    LevelOf(ts, lv, kr, root, ix, l);
    if l < 3 {
      OtherRoot(ts, lv, kr, t, root, ix, l + 1);
    }
  }

  lemma {:induction false} EmptiedTree(ts: Tables, lv: map<nat, nat>, kr: seq<Pte>, t: nat)
    requires Tree(ts, lv, kr) && IsRootTable(lv, t) && forall i :: 0 <= i < 256 ==> kr[i] == EMPTY
    ensures Tree(ts[t := kr], lv, kr)
    ensures forall ix :: UserPath(ix) ==> Lookup(ts[t := kr], t, ix).None?
  {
    var ts' := ts[t := kr];
    assert forall u, i :: Inner(ts', lv, u, i) ==> u != t && Inner(ts, lv, u, i) && ts'[u] == ts[u];
    forall ix | UserPath(ix)
      ensures Lookup(ts', t, ix).None?
    {
      assert TableAt(ts', t, ix, 2).None?;
      NoneBelow(ts', t, ix, 2, 0);
    }
  }

  lemma {:induction false} RootEmptied(ts: Tables, lv: map<nat, nat>, kr: seq<Pte>, t: nat)
    requires Standing(ts, lv, kr) && IsRootTable(lv, t) && forall i :: 0 <= i < 256 ==> kr[i] == EMPTY
    ensures var ts' := ts[t := kr];
            Standing(ts', Kept(ts', lv), kr) && SameRoots(lv, Kept(ts', lv)) && Without(Bindings(ts, lv), Bindings(ts', Kept(ts', lv)), t)
  {
    var ts' := ts[t := kr];
    EmptiedTree(ts, lv, kr, t);
    KeptStands(ts', lv, kr);
    forall k: (nat, seq<nat>)
      ensures k in Bindings(ts', lv) <==> k in Bindings(ts, lv) && k.0 != t
      ensures k in Bindings(ts', lv) ==> Bindings(ts', lv)[k] == Bindings(ts, lv)[k]
    {
      BindingAt(ts, lv, k);
      BindingAt(ts', lv, k);
      if IsRootTable(lv, k.0) && UserPath(k.1) && k.0 != t {
        OtherRoot(ts, lv, kr, t, k.0, k.1, 0);
      }
    }
  }

  /** Below a root nothing can be a root. */
  lemma {:induction false} RootBelow(ts: Tables, lv: map<nat, nat>, kr: seq<Pte>, t: nat)
    requires Standing(ts, lv, kr) && t in lv && lv[t] < 3
    ensures !SomeTree(ts[t := kr], lv[t := 3], kr)
  {
    var ts' := ts[t := kr];
    var root, ix := AWay(ts, lv, kr, t);
    AboveItself(ts, lv, kr, t, root, ix, lv[t]);
    forall lv' | SameRoots(lv[t := 3], lv') && Tree(ts', lv', kr)
      ensures false
    {
      LevelForced(ts', lv[t := 3], lv', kr, root, ix, lv[t], t);
      assert IsRootTable(lv[t := 3], t);
    }
  }

  lemma {:induction false} AboveItself(ts: Tables, lv: map<nat, nat>, kr: seq<Pte>, t: nat, root: nat, ix: seq<nat>, l: nat)
    requires Tree(ts, lv, kr) && t in lv && lv[t] <= l <= 3 && IsRootTable(lv, root) && UserPath(ix)
    ensures TableAt(ts[t := kr], root, ix, l) == TableAt(ts, root, ix, l)
    decreases 3 - l
  {
    LevelOf(ts, lv, kr, root, ix, l);
    if l < 3 {
      AboveItself(ts, lv, kr, t, root, ix, l + 1);
      LevelOf(ts, lv, kr, root, ix, l + 1);
    }
  }

  /** Making a table a root leaves a tree with one more root exactly if the table hangs nowhere or is a
      root already. */
  lemma {:induction false} RootKeepsTreeExactly(ts: Tables, lv: map<nat, nat>, kr: seq<Pte>, t: nat)
    requires Standing(ts, lv, kr) && t in ts && forall i :: 0 <= i < 256 ==> kr[i] == EMPTY
    ensures SomeTree(ts[t := kr], lv[t := 3], kr) <==> (t in lv ==> lv[t] == 3)
  {
    if t !in lv {
      FreshRoot(ts, lv, kr, t);
      ATree(ts[t := kr], lv[t := 3], kr, lv[t := 3]);
    } else if lv[t] == 3 {
      EmptiedTree(ts, lv, kr, t);
      ATree(ts[t := kr], lv[t := 3], kr, lv);
    } else {
      RootBelow(ts, lv, kr, t);
    }
  }

  lemma {:induction false} ATree(ts: Tables, lv: map<nat, nat>, kr: seq<Pte>, lv': map<nat, nat>)
    requires Tree(ts, lv', kr) && SameRoots(lv, lv')
    ensures SomeTree(ts, lv, kr)
  {
  }
}
