/**
 The derivation list: every entry of capability space is linked to its neighbours in both
 directions, entries derived from a capability following it.  Entries are named by identity.
 The links stand for a set of sequences; inserting splices a new entry in right after its
 parent, and moving puts a new entry in the place of the old one.
 */
module Derivation {
  import opened Kinds

  type Entry = nat

  datatype Links = Links(prev: Option<Entry>, next: Option<Entry>)

  type LinkMap = map<Entry, Links>

  function Before(l: seq<Entry>, i: nat): (e: Option<Entry>)
    requires i < |l|
  {
    if i > 0 then Some(l[i - 1]) else None
  }

  function Behind(l: seq<Entry>, i: nat): (e: Option<Entry>)
    requires i < |l|
  {
    if i + 1 < |l| then Some(l[i + 1]) else None
  }

  /** The entries of l are linked in that order. */
  ghost predicate Shows(ls: LinkMap, l: seq<Entry>)
  {
    forall i :: 0 <= i < |l| ==> l[i] in ls && ls[l[i]] == Links(Before(l, i), Behind(l, i))
  }

  ghost predicate Distinct(lists: seq<seq<Entry>>)
  {
    && (forall c :: 0 <= c < |lists| ==> NoRepeat(lists[c]))
    && (forall c, d :: 0 <= c < d < |lists| ==> Disjoint(lists[c], lists[d]))
  }

  ghost predicate At(lists: seq<seq<Entry>>, e: Entry, c: nat, i: nat) { c < |lists| && i < |lists[c]| && lists[c][i] == e }

  ghost predicate Listed(lists: seq<seq<Entry>>, e: Entry) { exists c, i :: At(lists, e, c, i) }

  ghost predicate AllShow(ls: LinkMap, lists: seq<seq<Entry>>) { forall c :: 0 <= c < |lists| ==> Shows(ls, lists[c]) }

  ghost predicate AllListed(ls: LinkMap, lists: seq<seq<Entry>>) { forall e :: e in ls ==> Listed(lists, e) }

  /** The links stand for these lists, in which every entry is once. */
  ghost predicate Stands(ls: LinkMap, lists: seq<seq<Entry>>)
  {
    Distinct(lists) && AllShow(ls, lists) && AllListed(ls, lists)
  }

  ghost predicate NoRepeat(l: seq<Entry>) { forall i, j :: 0 <= i < j < |l| ==> l[i] != l[j] }

  ghost predicate Disjoint(l: seq<Entry>, k: seq<Entry>) { forall i, j :: 0 <= i < |l| && 0 <= j < |k| ==> l[i] != k[j] }

  lemma {:induction false} DistinctLists(lists: seq<seq<Entry>>, c: nat, d: nat)
    requires Distinct(lists) && c < |lists| && d < |lists|
    ensures NoRepeat(lists[c]) && (c != d ==> Disjoint(lists[c], lists[d]))
  {
    if d < c { assert Disjoint(lists[d], lists[c]); }
  }

  /** Where an entry is. */
  lemma {:induction false} PlaceOf(ls: LinkMap, lists: seq<seq<Entry>>, e: Entry) returns (c: nat, i: nat)
    requires Stands(ls, lists) && e in ls
    ensures At(lists, e, c, i) && Shows(ls, lists[c])
  {
    c, i :| At(lists, e, c, i);
  }

  lemma {:induction false} SamePlace(lists: seq<seq<Entry>>, e: Entry, c: nat, i: nat, d: nat, j: nat)
    requires Distinct(lists) && At(lists, e, c, i) && At(lists, e, d, j)
    ensures c == d && i == j
  {
    DistinctLists(lists, c, d);
  }

  /** Links that stand for lists are inverse to each other. */
  lemma {:induction false} Inverse(ls: LinkMap, lists: seq<seq<Entry>>, a: Entry, b: Entry)
    requires Stands(ls, lists) && a in ls && b in ls
    ensures ls[a].next == Some(b) <==> ls[b].prev == Some(a)
  {
    var c, i := PlaceOf(ls, lists, a);
    var d, j := PlaceOf(ls, lists, b);
    if ls[a].next == Some(b) {
      SamePlace(lists, b, c, i + 1, d, j);
    }
    if ls[b].prev == Some(a) {
      SamePlace(lists, a, c, i, d, j - 1);
    }
  }

  /** The entry reached by following n links. */
  function Follow(ls: LinkMap, e: Entry, n: nat): (r: Option<Entry>)
    requires e in ls
    decreases n
  {
    if n == 0 then Some(e)
    else match ls[e].next
      case None => None
      case Some(f) => if f in ls then Follow(ls, f, n - 1) else None
  }

  lemma {:induction false} FollowIs(ls: LinkMap, lists: seq<seq<Entry>>, c: nat, i: nat, n: nat)
    requires c < |lists| && Shows(ls, lists[c]) && i < |lists[c]|
    ensures Follow(ls, lists[c][i], n) == if i + n < |lists[c]| then Some(lists[c][i + n]) else None
    decreases n
  {
    if n > 0 && i + 1 < |lists[c]| {
      FollowIs(ls, lists, c, i + 1, n - 1);
    }
  }

  /** They have no cycle. */
  lemma {:induction false} Acyclic(ls: LinkMap, lists: seq<seq<Entry>>, e: Entry, n: nat)
    requires Stands(ls, lists) && e in ls && n > 0
    ensures Follow(ls, e, n) != Some(e)
  {
    var c, i := PlaceOf(ls, lists, e);
    FollowIs(ls, lists, c, i, n);
    DistinctLists(lists, c, c);
  }

  // ---------------------------------------------------------------- setting links

  function SetNext(ls: LinkMap, a: Entry, b: Entry): (r: LinkMap)
    requires a in ls && b in ls
    ensures r.Keys == ls.Keys
  {
    var m := ls[a := ls[a].(next := Some(b))];
    m[b := m[b].(prev := Some(a))]
  }

  /** The links after e has been spliced in behind parent. */
  function Spliced(ls: LinkMap, e: Entry, parent: Entry): (r: LinkMap)
    requires parent in ls && (ls[parent].next.Some? ==> ls[parent].next.value in ls)
    ensures r.Keys == ls.Keys + {e}
  {
    var m := ls[e := Links(None, None)];
    var m := if ls[parent].next.Some? then SetNext(m, e, ls[parent].next.value) else m;
    SetNext(m, parent, e)
  }

  /** The links after e has taken the place of src. */
  function Replaced(ls: LinkMap, e: Entry, src: Entry): (r: LinkMap)
    requires src in ls && (ls[src].next.Some? ==> ls[src].next.value in ls) && (ls[src].prev.Some? ==> ls[src].prev.value in ls)
    ensures r.Keys == ls.Keys + {e} - {src}
  {
    var m := ls[e := Links(None, None)];
    var m := if ls[src].next.Some? then SetNext(m, e, ls[src].next.value) else m;
    var m := if ls[src].prev.Some? then SetNext(m, ls[src].prev.value, e) else m;
    m - {src}
  }

  lemma {:induction false} NotListed(ls: LinkMap, lists: seq<seq<Entry>>, e: Entry)
    requires Stands(ls, lists) && e !in ls
    ensures forall c, i :: 0 <= c < |lists| && 0 <= i < |lists[c]| ==> lists[c][i] != e
  {
    forall c, i | 0 <= c < |lists| && 0 <= i < |lists[c]|
      ensures lists[c][i] != e
    {
      assert Shows(ls, lists[c]);
    }
  }

  function InsertAt(l: seq<Entry>, i: nat, e: Entry): (r: seq<Entry>)
    requires i < |l|
  {
    l[..i + 1] + [e] + l[i + 1..]
  }

  function ReplaceAt(l: seq<Entry>, i: nat, e: Entry): (r: seq<Entry>)
    requires i < |l|
  {
    l[i := e]
  }

  /** In the list of the parent. */
  lemma {:induction false} SplicedShows(ls: LinkMap, l: seq<Entry>, i: nat, e: Entry)
    requires Shows(ls, l) && i < |l| && e !in ls
    requires forall j, k :: 0 <= j < k < |l| ==> l[j] != l[k]
    ensures Shows(Spliced(ls, e, l[i]), InsertAt(l, i, e))
  {
    var r, m := InsertAt(l, i, e), Spliced(ls, e, l[i]);
    forall j | 0 <= j < |r|
      ensures r[j] in m && m[r[j]] == Links(Before(r, j), Behind(r, j))
    {
      assert r[j] == if j <= i then l[j] else if j == i + 1 then e else l[j - 1];
    }
  }

  /** In every other list. */
  lemma {:induction false} OthersShow(ls: LinkMap, m: LinkMap, l: seq<Entry>)
    requires Shows(ls, l) && forall i :: 0 <= i < |l| ==> l[i] in m && m[l[i]] == ls[l[i]]
    ensures Shows(m, l)
  {
  }

  lemma {:induction false} SplicedElsewhere(ls: LinkMap, l: seq<Entry>, i: nat, e: Entry, k: seq<Entry>)
    requires Shows(ls, l) && Shows(ls, k) && Disjoint(l, k) && i < |l| && e !in ls
    ensures Shows(Spliced(ls, e, l[i]), k)
  {
    OthersShow(ls, Spliced(ls, e, l[i]), k);
  }

  lemma {:induction false} InsertDistinct(lists: seq<seq<Entry>>, c: nat, i: nat, e: Entry)
    requires Distinct(lists) && c < |lists| && i < |lists[c]|
    requires forall d, j :: 0 <= d < |lists| && 0 <= j < |lists[d]| ==> lists[d][j] != e
    ensures Distinct(lists[c := InsertAt(lists[c], i, e)])
  {
    var l, r := lists[c], InsertAt(lists[c], i, e);
    forall j | 0 <= j < |r|
      ensures r[j] == if j <= i then l[j] else if j == i + 1 then e else l[j - 1]
    {
    }
  }

  lemma {:induction false} InsertListed(lists: seq<seq<Entry>>, c: nat, i: nat, e: Entry, f: Entry)
    requires c < |lists| && i < |lists[c]| && (f == e || Listed(lists, f))
    ensures Listed(lists[c := InsertAt(lists[c], i, e)], f)
  {
    var r := lists[c := InsertAt(lists[c], i, e)];
    if f == e {
      assert At(r, f, c, i + 1);
    } else {
      var d: nat, j: nat :| At(lists, f, d, j);
      if d == c && j > i {
        assert At(r, f, d, j + 1);
      } else {
        assert At(r, f, d, j);
      }
    }
  }

  /** The links stand for lists in all respects but one list, c. */
  lemma {:induction false} SplicedShowsAll(ls: LinkMap, lists: seq<seq<Entry>>, e: Entry, c: nat, i: nat, d: nat)
    requires Stands(ls, lists) && e !in ls && c < |lists| && i < |lists[c]| && d < |lists|
    ensures Shows(ls, lists[c]) && Shows(Spliced(ls, e, lists[c][i]), lists[c := InsertAt(lists[c], i, e)][d])
  {
    assert Shows(ls, lists[c]) && Shows(ls, lists[d]);
    DistinctLists(lists, c, d);
    if d == c {
      SplicedShows(ls, lists[c], i, e);
    } else {
      SplicedElsewhere(ls, lists[c], i, e, lists[d]);
    }
  }

  lemma {:induction false} SplicedAllShow(ls: LinkMap, lists: seq<seq<Entry>>, e: Entry, c: nat, i: nat)
    requires Stands(ls, lists) && e !in ls && c < |lists| && i < |lists[c]|
    ensures Shows(ls, lists[c]) && AllShow(Spliced(ls, e, lists[c][i]), lists[c := InsertAt(lists[c], i, e)])
  {
    assert Shows(ls, lists[c]);
    var r := lists[c := InsertAt(lists[c], i, e)];
    forall d | 0 <= d < |r|
      ensures Shows(Spliced(ls, e, lists[c][i]), r[d])
    {
      SplicedShowsAll(ls, lists, e, c, i, d);
    }
  }

  lemma {:induction false} SplicedAllListed(ls: LinkMap, lists: seq<seq<Entry>>, e: Entry, c: nat, i: nat)
    requires AllListed(ls, lists) && c < |lists| && i < |lists[c]| && Shows(ls, lists[c])
    ensures AllListed(Spliced(ls, e, lists[c][i]), lists[c := InsertAt(lists[c], i, e)])
  {
    forall f | f in Spliced(ls, e, lists[c][i])
      ensures Listed(lists[c := InsertAt(lists[c], i, e)], f)
    {
      InsertListed(lists, c, i, e, f);
    }
  }

  /** Splicing e in behind an entry stands for the list with e right after it. */
  lemma {:induction false} SplicedStands(ls: LinkMap, lists: seq<seq<Entry>>, e: Entry, c: nat, i: nat)
    requires Stands(ls, lists) && e !in ls && c < |lists| && i < |lists[c]|
    ensures Shows(ls, lists[c]) && Stands(Spliced(ls, e, lists[c][i]), lists[c := InsertAt(lists[c], i, e)])
  {
    NotListed(ls, lists, e);
    InsertDistinct(lists, c, i, e);
    SplicedAllShow(ls, lists, e, c, i);
    SplicedAllListed(ls, lists, e, c, i);
  }

  // ---------------------------------------------------------------- replacing

  lemma {:induction false} ReplacedShows(ls: LinkMap, l: seq<Entry>, i: nat, e: Entry)
    requires Shows(ls, l) && i < |l| && e !in ls && NoRepeat(l)
    ensures Shows(Replaced(ls, e, l[i]), ReplaceAt(l, i, e))
  {
    var r, m := ReplaceAt(l, i, e), Replaced(ls, e, l[i]);
    forall j | 0 <= j < |r|
      ensures r[j] in m && m[r[j]] == Links(Before(r, j), Behind(r, j))
    {
    }
  }

  lemma {:induction false} ReplacedElsewhere(ls: LinkMap, l: seq<Entry>, i: nat, e: Entry, k: seq<Entry>)
    requires Shows(ls, l) && Shows(ls, k) && Disjoint(l, k) && i < |l| && e !in ls
    ensures Shows(Replaced(ls, e, l[i]), k)
  {
    OthersShow(ls, Replaced(ls, e, l[i]), k);
  }

  lemma {:induction false} ReplacedShowsAll(ls: LinkMap, lists: seq<seq<Entry>>, e: Entry, c: nat, i: nat, d: nat)
    requires Stands(ls, lists) && e !in ls && c < |lists| && i < |lists[c]| && d < |lists|
    ensures Shows(ls, lists[c]) && Shows(Replaced(ls, e, lists[c][i]), lists[c := ReplaceAt(lists[c], i, e)][d])
  {
    assert Shows(ls, lists[c]) && Shows(ls, lists[d]);
    DistinctLists(lists, c, d);
    if d == c {
      ReplacedShows(ls, lists[c], i, e);
    } else {
      ReplacedElsewhere(ls, lists[c], i, e, lists[d]);
    }
  }

  lemma {:induction false} ReplaceDistinct(lists: seq<seq<Entry>>, c: nat, i: nat, e: Entry)
    requires Distinct(lists) && c < |lists| && i < |lists[c]|
    requires forall d, j :: 0 <= d < |lists| && 0 <= j < |lists[d]| ==> lists[d][j] != e
    ensures Distinct(lists[c := ReplaceAt(lists[c], i, e)])
  {
  }

  lemma {:induction false} ReplaceListed(lists: seq<seq<Entry>>, c: nat, i: nat, e: Entry, f: Entry)
    requires c < |lists| && i < |lists[c]| && (f == e || (f != lists[c][i] && Listed(lists, f)))
    ensures Listed(lists[c := ReplaceAt(lists[c], i, e)], f)
  {
    var r := lists[c := ReplaceAt(lists[c], i, e)];
    if f == e {
      assert At(r, f, c, i);
    } else {
      var d: nat, j: nat :| At(lists, f, d, j);
      assert At(r, f, d, j);
    }
  }

  lemma {:induction false} ReplacedAllShow(ls: LinkMap, lists: seq<seq<Entry>>, e: Entry, c: nat, i: nat)
    requires Stands(ls, lists) && e !in ls && c < |lists| && i < |lists[c]|
    ensures Shows(ls, lists[c]) && AllShow(Replaced(ls, e, lists[c][i]), lists[c := ReplaceAt(lists[c], i, e)])
  {
    assert Shows(ls, lists[c]);
    var r := lists[c := ReplaceAt(lists[c], i, e)];
    forall d | 0 <= d < |r|
      ensures Shows(Replaced(ls, e, lists[c][i]), r[d])
    {
      ReplacedShowsAll(ls, lists, e, c, i, d);
    }
  }

  lemma {:induction false} ReplacedAllListed(ls: LinkMap, lists: seq<seq<Entry>>, e: Entry, c: nat, i: nat)
    requires AllListed(ls, lists) && c < |lists| && i < |lists[c]| && Shows(ls, lists[c])
    ensures AllListed(Replaced(ls, e, lists[c][i]), lists[c := ReplaceAt(lists[c], i, e)])
  {
    forall f | f in Replaced(ls, e, lists[c][i])
      ensures Listed(lists[c := ReplaceAt(lists[c], i, e)], f)
    {
      ReplaceListed(lists, c, i, e, f);
    }
  }

  /** Putting e in the place of an entry stands for the list with just that entry exchanged. */
  lemma {:induction false} ReplacedStands(ls: LinkMap, lists: seq<seq<Entry>>, e: Entry, c: nat, i: nat)
    requires Stands(ls, lists) && e !in ls && c < |lists| && i < |lists[c]|
    ensures Shows(ls, lists[c]) && Stands(Replaced(ls, e, lists[c][i]), lists[c := ReplaceAt(lists[c], i, e)])
  {
    NotListed(ls, lists, e);
    ReplaceDistinct(lists, c, i, e);
    ReplacedAllShow(ls, lists, e, c, i);
    ReplacedAllListed(ls, lists, e, c, i);
  }

  // ---------------------------------------------------------------- the kernel's entries

  class DerivationTree {
    var links: LinkMap
    /** The lists that the links stand for. */
    ghost var lists: seq<seq<Entry>>

    ghost predicate Valid()
      reads this
    {
      Stands(links, lists)
    }

    constructor ()
      ensures Valid() && links == map[] && lists == []
    {
      links, lists := map[], [];
    }

    /** A capability that is derived from nothing. */
    method AddRoot(e: Entry)
      requires Valid() && e !in links
      modifies this
      ensures Valid() && lists == old(lists) + [[e]] && links == old(links)[e := Links(None, None)]
    {
      RootStands(links, lists, e);
      links := links[e := Links(None, None)];
      lists := lists + [[e]];
    }

    /** Link a to b as its next entry, in both directions. */
    method LinkNext(a: Entry, b: Entry)
      requires a in links && b in links
      modifies this`links
      ensures links == SetNext(old(links), a, b)
    {
      links := links[a := links[a].(next := Some(b))];
      links := links[b := links[b].(prev := Some(a))];
    }

    /** Link a to b as its previous entry, in both directions. */
    method LinkPrev(a: Entry, b: Entry)
      requires a in links && b in links && a != b
      modifies this`links
      ensures links == SetNext(old(links), b, a)
    {
      links := links[a := links[a].(prev := Some(b))];
      links := links[b := links[b].(next := Some(a))];
      assert links == SetNext(old(links), b, a);
    }

    method Splice(e: Entry, parent: Entry)
      requires e !in links && parent in links && (links[parent].next.Some? ==> links[parent].next.value in links)
      modifies this`links
      ensures links == Spliced(old(links), e, parent)
    {
      links := links[e := Links(None, None)];
      var next := links[parent].next;
      if next.Some? {
        LinkNext(e, next.value);
      }
      LinkNext(parent, e);
    }

    method TakePlace(e: Entry, src: Entry)
      requires e !in links && src in links
      requires links[src].next.Some? ==> links[src].next.value in links && links[src].next.value != src
      requires links[src].prev.Some? ==> links[src].prev.value in links && links[src].prev.value != src
      modifies this`links
      ensures links == Replaced(old(links), e, src)
    {
      links := links[e := Links(None, None)];
      var next := links[src].next;
      if next.Some? {
        LinkBefore(e, next.value);
      }
      var prev := links[src].prev;
      if prev.Some? {
        LinkBehind(e, prev.value);
      }
      links := links - {src};
    }

    /** e comes before next; both links are set twice. */
    method LinkBefore(e: Entry, next: Entry)
      requires e in links && next in links && e != next
      modifies this`links
      ensures links == SetNext(old(links), e, next)
    {
      LinkPrev(next, e);
      LinkNext(e, next);
    }

    /** e comes behind prev; both links are set twice. */
    method LinkBehind(e: Entry, prev: Entry)
      requires e in links && prev in links && e != prev
      modifies this`links
      ensures links == SetNext(old(links), prev, e)
    {
      LinkNext(prev, e);
      LinkPrev(e, prev);
    }

    /** Put the new entry e right behind its parent. */
    method Insert(e: Entry, parent: Entry) returns (ghost c: nat, ghost i: nat)
      requires Valid() && e !in links && parent in links
      modifies this
      ensures Valid() && At(old(lists), parent, c, i)
      ensures lists == old(lists)[c := InsertAt(old(lists)[c], i, e)]
      ensures links.Keys == old(links).Keys + {e}
    {
      c, i := InsertWorks(links, lists, e, parent);
      Splice(e, parent);
      lists := lists[c := InsertAt(lists[c], i, e)];
    }

    /** Put the new entry e in the place of src, which goes. */
    method Replace(e: Entry, src: Entry) returns (ghost c: nat, ghost i: nat)
      requires Valid() && e !in links && src in links
      modifies this
      ensures Valid() && At(old(lists), src, c, i)
      ensures lists == old(lists)[c := ReplaceAt(old(lists)[c], i, e)]
      ensures links.Keys == old(links).Keys + {e} - {src}
    {
      c, i := ReplaceWorks(links, lists, e, src);
      TakePlace(e, src);
      lists := lists[c := ReplaceAt(lists[c], i, e)];
    }
  }

  lemma {:induction false} InsertWorks(ls: LinkMap, lists: seq<seq<Entry>>, e: Entry, parent: Entry) returns (c: nat, i: nat)
    requires Stands(ls, lists) && e !in ls && parent in ls
    ensures At(lists, parent, c, i) && (ls[parent].next.Some? ==> ls[parent].next.value in ls)
    ensures Stands(Spliced(ls, e, parent), lists[c := InsertAt(lists[c], i, e)])
  {
    c, i := PlaceOf(ls, lists, parent);
    SplicedStands(ls, lists, e, c, i);
  }

  lemma {:induction false} ReplaceWorks(ls: LinkMap, lists: seq<seq<Entry>>, e: Entry, src: Entry) returns (c: nat, i: nat)
    requires Stands(ls, lists) && e !in ls && src in ls
    ensures At(lists, src, c, i)
    ensures ls[src].next.Some? ==> ls[src].next.value in ls && ls[src].next.value != src
    ensures ls[src].prev.Some? ==> ls[src].prev.value in ls && ls[src].prev.value != src
    ensures Stands(Replaced(ls, e, src), lists[c := ReplaceAt(lists[c], i, e)])
  {
    c, i := PlaceOf(ls, lists, src);
    DistinctLists(lists, c, c);
    ReplacedStands(ls, lists, e, c, i);
  }

  lemma {:induction false} RootDistinct(lists: seq<seq<Entry>>, e: Entry)
    requires Distinct(lists)
    requires forall d, j :: 0 <= d < |lists| && 0 <= j < |lists[d]| ==> lists[d][j] != e
    ensures Distinct(lists + [[e]])
  {
  }

  lemma {:induction false} RootAllShow(ls: LinkMap, lists: seq<seq<Entry>>, e: Entry)
    requires AllShow(ls, lists) && e !in ls
    ensures AllShow(ls[e := Links(None, None)], lists + [[e]])
  {
    var m, r := ls[e := Links(None, None)], lists + [[e]];
    forall c | 0 <= c < |r|
      ensures Shows(m, r[c])
    {
      if c < |lists| {
        assert r[c] == lists[c] && Shows(ls, lists[c]);
        OthersShow(ls, m, lists[c]);
      }
    }
  }

  lemma {:induction false} RootAllListed(ls: LinkMap, lists: seq<seq<Entry>>, e: Entry)
    requires AllListed(ls, lists)
    ensures AllListed(ls[e := Links(None, None)], lists + [[e]])
  {
    var r := lists + [[e]];
    assert At(r, e, |lists|, 0);
    forall f | f in ls
      ensures Listed(r, f)
    {
      var c: nat, i: nat :| At(lists, f, c, i);
      assert At(r, f, c, i);
    }
  }

  lemma {:induction false} RootStands(ls: LinkMap, lists: seq<seq<Entry>>, e: Entry)
    requires Stands(ls, lists) && e !in ls
    ensures Stands(ls[e := Links(None, None)], lists + [[e]])
  {
    NotListed(ls, lists, e);
    RootDistinct(lists, e);
    RootAllShow(ls, lists, e);
    RootAllListed(ls, lists, e);
  }
}
