/**
 Capability space: CNodes hold slots, slots hold capabilities, and capabilities to CNodes
 may form any graph, cycles included.  The kernel resolves an address by shifting and
 masking, level by level; the specification reads the address as a string of bits and
 consumes a prefix at each CNode.  The two agree, lookups end exactly if no CNodes of one slot
 lead back to themselves, and an address composed the way user programs compose it designates the
 slot it is meant to.
 */
module CSpace {
  import opened Kinds
  import opened Bits

  datatype CapType = Untyped | Tcb | EndPoint | CNode | Notification | PageTable | Page

  datatype Cap = Cap(ctype: CapType, addr: nat, word: nat) {
    /** For a CNode: the number of index bits. */
    function Radix(): (r: nat) { word % 0x1_0000_0000 }
  }

  datatype Slot = Empty | Full(cap: Cap)

  /** CNodes by physical address. */
  type CNodes = map<nat, seq<Slot>>

  /** A slot by place. */
  datatype Place = Place(node: nat, index: nat)

  /** A CNode capability describes the CNode it points to. */
  ghost predicate Sound(cn: CNodes, c: Cap)
  {
    c.ctype.CNode? ==> c.addr in cn && c.Radix() < 64 && |cn[c.addr]| == Pow2(c.Radix())
  }

  ghost predicate AllSound(cn: CNodes)
  {
    forall n, i :: n in cn && 0 <= i < |cn[n]| && cn[n][i].Full? ==> Sound(cn, cn[n][i].cap)
  }

  /** All capabilities are sound and no lookup can go round in circles. */
  ghost predicate Wf(cn: CNodes) { AllSound(cn) && Grounded(cn) }

  ghost predicate HasSlot(cn: CNodes, p: Place) { p.node in cn && p.index < |cn[p.node]| }

  // ---------------------------------------------------------------- CNodes of radix 0

  /** A CNode of radix 0 has one slot and takes no bits of an address: where the lookup goes from
      there without using any, if it goes to another CNode of radix 0. */
  function ZeroNext(cn: CNodes, a: nat): (r: Option<nat>)
  {
    if a in cn && |cn[a]| == 1 && cn[a][0].Full? && cn[a][0].cap.ctype.CNode? && cn[a][0].cap.Radix() == 0
    then Some(cn[a][0].cap.addr) else None
  }

  /** k such steps. */
  function ZeroPath(cn: CNodes, a: nat, k: nat): (r: Option<nat>)
    decreases k
  {
    if k == 0 then Some(a)
    else match ZeroNext(cn, a)
      case None => None
      case Some(b) => ZeroPath(cn, b, k - 1)
  }

  /** No CNode of radix 0 leads back to itself through slots of CNodes of radix 0. */
  ghost predicate Grounded(cn: CNodes) { forall a: nat, k: nat :: k > 0 ==> ZeroPath(cn, a, k) != Some(a) }

  lemma {:induction false} ZeroPathAdd(cn: CNodes, a: nat, j: nat, k: nat)
    ensures ZeroPath(cn, a, j + k) == match ZeroPath(cn, a, j) case None => None case Some(b) => ZeroPath(cn, b, k)
    decreases j
  {
    if j > 0 {
      match ZeroNext(cn, a)
      case None =>
      case Some(b) => ZeroPathAdd(cn, b, j - 1, k);
    }
  }

  /** The CNodes that can be reached so. */
  ghost function Reach(cn: CNodes, a: nat): (r: set<nat>)
  {
    set b: nat | b in cn && exists k: nat :: ZeroPath(cn, a, k) == Some(b)
  }

  /** Each step reaches less: this is why lookups end. */
  lemma {:induction false} ReachShrinks(cn: CNodes, a: nat, b: nat)
    requires Grounded(cn) && ZeroNext(cn, a) == Some(b)
    ensures Reach(cn, b) < Reach(cn, a)
  {
    forall x | x in Reach(cn, b)
      ensures x in Reach(cn, a)
    {
      var k: nat :| ZeroPath(cn, b, k) == Some(x);
      assert ZeroPath(cn, a, k + 1) == Some(x);
    }
    assert ZeroPath(cn, a, 0) == Some(a);
    forall k: nat
      ensures ZeroPath(cn, b, k) != Some(a)
    {
      assert ZeroPath(cn, a, k + 1) == ZeroPath(cn, b, k);
    }
    assert a in Reach(cn, a) && a !in Reach(cn, b);
  }

  /** Fewer steps without bits lead into fewer circles. */
  lemma {:induction false} FewerSteps(cn: CNodes, cn': CNodes)
    requires Grounded(cn) && forall a: nat :: ZeroNext(cn', a).Some? ==> ZeroNext(cn', a) == ZeroNext(cn, a)
    ensures Grounded(cn')
  {
    forall a: nat, k: nat | k > 0
      ensures ZeroPath(cn', a, k) != Some(a)
    {
      SamePath(cn, cn', a, k);
    }
  }

  lemma {:induction false} SamePath(cn: CNodes, cn': CNodes, a: nat, k: nat)
    requires forall a: nat :: ZeroNext(cn', a).Some? ==> ZeroNext(cn', a) == ZeroNext(cn, a)
    ensures ZeroPath(cn', a, k).Some? ==> ZeroPath(cn, a, k) == ZeroPath(cn', a, k)
    decreases k
  {
    if k > 0 && ZeroNext(cn', a).Some? {
      SamePath(cn, cn', ZeroNext(cn', a).value, k - 1);
    }
  }

  lemma {:induction false} NoStepsGrounded(cn: CNodes)
    requires forall x: nat :: ZeroNext(cn, x).None?
    ensures Grounded(cn)
  {
    forall a: nat, k: nat | k > 0
      ensures ZeroPath(cn, a, k) != Some(a)
    {
    }
  }

  // ---------------------------------------------------------------- addresses as bit strings

  /** The low d bits of p, most significant first. */
  function PathBits(p: nat, d: nat): (b: seq<bool>)
    ensures |b| == d
  {
    if d == 0 then [] else PathBits(p / 2, d - 1) + [p % 2 == 1]
  }

  /** The number a bit string spells. */
  function Value(b: seq<bool>): (n: nat)
    ensures n < Pow2(|b|)
  {
    if b == [] then 0 else 2 * Value(b[..|b| - 1]) + (if b[|b| - 1] then 1 else 0)
  }

  lemma {:induction false} ValueOfPath(p: nat, k: nat)
    ensures Value(PathBits(p, k)) == Low(p, k)
  {
    if k > 0 {
      ValueOfPath(p / 2, k - 1);
      assert PathBits(p, k)[..k - 1] == PathBits(p / 2, k - 1);
    }
  }

  /** A path of hi + lo bits is the path of its upper bits followed by that of its lower bits. */
  lemma {:induction false} PathSplit(p: nat, hi: nat, lo: nat)
    ensures PathBits(p, hi + lo) == PathBits(Shr(p, lo), hi) + PathBits(p, lo)
  {
    if lo > 0 {
      PathSplit(p / 2, hi, lo - 1);
    }
  }

  /** Only the low bits of the number matter. */
  lemma {:induction false} PathOfLow(a: nat, b: nat, k: nat)
    requires Low(a, k) == Low(b, k)
    ensures PathBits(a, k) == PathBits(b, k)
  {
    if k > 0 {
      assert Low(a, k) % 2 == a % 2 && Low(b, k) % 2 == b % 2;
      assert Low(a, k) / 2 == Low(a / 2, k - 1) && Low(b, k) / 2 == Low(b / 2, k - 1);
      PathOfLow(a / 2, b / 2, k - 1);
    }
  }

  // ---------------------------------------------------------------- resolution

  /** Resolve a bit string from a CNode capability: take as many bits as its radix to find a
      slot, and go on from there while bits are left and the slot leads to another CNode. */
  function Resolve(cn: CNodes, c: Cap, bits: seq<bool>): (r: Result<Place>)
    requires Wf(cn) && c.ctype.CNode? && Sound(cn, c)
    ensures !r.Halt? && (r.Ok? ==> HasSlot(cn, r.value)) && (r.Err? ==> r == Err(OutOfMemory, 0))
    decreases |bits|, if c.Radix() == 0 then 1 else 0, Reach(cn, c.addr)
  {
    var k := c.Radix();
    if |bits| < k then Err(OutOfMemory, 0)
    else
      var i, rest := Value(bits[..k]), bits[k..];
      match cn[c.addr][i]
      case Empty => Ok(Place(c.addr, i))
      case Full(next) =>
        if rest == [] || !next.ctype.CNode? then Ok(Place(c.addr, i))
        else
          StepEnds(cn, c, next);
          Resolve(cn, next, rest)
  }

  /** From a CNode of radix 0 to another, less can be reached. */
  lemma {:induction false} StepEnds(cn: CNodes, c: Cap, next: Cap)
    requires Wf(cn) && c.ctype.CNode? && Sound(cn, c) && next.ctype.CNode?
    requires c.Radix() == 0 && next.Radix() == 0 ==> cn[c.addr][0] == Full(next)
    ensures c.Radix() == 0 && next.Radix() == 0 ==> Reach(cn, next.addr) < Reach(cn, c.addr)
  {
    if c.Radix() == 0 && next.Radix() == 0 {
      ReachShrinks(cn, c.addr, next.addr);
    }
  }

  /** More bits lead on from a CNode that the first ones find; from an empty slot or anything else they lead nowhere, and
      what was found is found again. */
  lemma {:induction false} ResolveComposes(cn: CNodes, c: Cap, bits: seq<bool>, more: seq<bool>)
    requires Wf(cn) && c.ctype.CNode? && Sound(cn, c) && Resolve(cn, c, bits).Ok?
    ensures var p := Resolve(cn, c, bits).value;
            var s := cn[p.node][p.index];
            Resolve(cn, c, bits + more) == if more != [] && s.Full? && s.cap.ctype.CNode? then Resolve(cn, s.cap, more) else Ok(p)
    decreases |bits|, if c.Radix() == 0 then 1 else 0, Reach(cn, c.addr)
  {
    var k := c.Radix();
    var i, rest := Value(bits[..k]), bits[k..];
    assert (bits + more)[..k] == bits[..k] && (bits + more)[k..] == rest + more;
    if rest == [] {
      assert rest + more == more;
    } else if cn[c.addr][i].Full? && cn[c.addr][i].cap.ctype.CNode? {
      StepEnds(cn, c, cn[c.addr][i].cap);
      ResolveComposes(cn, cn[c.addr][i].cap, rest, more);
    }
  }

  /** The index that shifting and masking select is the number spelled by the leading bits. */
  lemma {:induction false} IndexIsPrefix(p: nat, depth: nat, k: nat)
    requires k <= depth
    ensures And(Shr(p, depth - k), Pow2(k) - 1) == Value(PathBits(p, depth)[..k])
    ensures PathBits(p, depth)[k..] == PathBits(p, depth - k)
  {
    PathSplit(p, k, depth - k);
    AndLowMask(Shr(p, depth - k), k);
    ValueOfPath(Shr(p, depth - k), k);
    assert PathBits(p, depth)[..k] == PathBits(Shr(p, depth - k), k);
  }

  /** One round of the kernel's lookup: where it looks and how many bits are left; a shift by
      the width of a word or more stops the kernel. */
  function OneLevel(c: Cap, capptr: nat, depth: nat): (r: Result<(nat, nat)>)
  {
    if depth < c.Radix() then Err(OutOfMemory, 0)
    else
      var remain := depth - c.Radix();
      if remain >= 64 || c.Radix() >= 64 then Halt
      else Ok((And(Shr(capptr, remain), Pow2(c.Radix()) - 1), remain))
  }

  /** The lookup loop.  On a graph without circles of radix 0 it terminates, and it stops the kernel
      only for a first shift of 64 or more. */
  method LookupEntry(cn: CNodes, root: Cap, capptr: nat, depthBits: nat) returns (r: Result<Place>)
    requires Wf(cn) && root.ctype.CNode? && Sound(cn, root)
    ensures r == if depthBits >= root.Radix() + 64 then Halt else Resolve(cn, root, PathBits(capptr, depthBits))
  {
    var c := root;
    var depth: nat := depthBits;
    while true
      invariant c.ctype.CNode? && Sound(cn, c)
      invariant depth >= c.Radix() + 64 ==> depthBits >= root.Radix() + 64
      invariant depthBits >= root.Radix() + 64 ==> c == root && depth == depthBits
      invariant depthBits < root.Radix() + 64 ==>
                  Resolve(cn, root, PathBits(capptr, depthBits)) == Resolve(cn, c, PathBits(capptr, depth))
      decreases depth, if c.Radix() == 0 then 1 else 0, Reach(cn, c.addr)
    {
      var step := OneLevel(c, capptr, depth);
      if !step.Ok? {
        return if step.Halt? then Halt else Err(step.kind, step.detail);
      }
      var (offset, remain) := step.value;
      IndexIsPrefix(capptr, depth, c.Radix());
      match cn[c.addr][offset] {
        case Empty => return Ok(Place(c.addr, offset));
        case Full(next) =>
          if remain == 0 || !next.ctype.CNode? {
            return Ok(Place(c.addr, offset));
          }
          StepEnds(cn, c, next);
          c, depth := next, remain;
      }
    }
  }

  // ---------------------------------------------------------------- when lookups end

  /** Where the loop goes from (c, depth), if it does not stop there. */
  function Continue(cn: CNodes, c: Cap, capptr: nat, depth: nat): (r: Option<(Cap, nat)>)
  {
    match OneLevel(c, capptr, depth)
    case Ok((i, remain)) =>
      if c.addr in cn && i < |cn[c.addr]| && cn[c.addr][i].Full? && remain != 0 && cn[c.addr][i].cap.ctype.CNode?
      then Some((cn[c.addr][i].cap, remain)) else None
    case _ => None
  }

  /** State of the loop after n rounds, or None if it has stopped by then. */
  function After(cn: CNodes, c: Cap, capptr: nat, depth: nat, n: nat): (r: Option<(Cap, nat)>)
    decreases n
  {
    if n == 0 then Some((c, depth))
    else match Continue(cn, c, capptr, depth)
      case None => None
      case Some((c', depth')) => After(cn, c', capptr, depth', n - 1)
  }

  ghost predicate Stops(cn: CNodes, c: Cap, capptr: nat, depth: nat) { exists n: nat :: After(cn, c, capptr, depth, n).None? }

  /** A round that goes on uses as many bits as the radix says; from radix 0 to radix 0 it is a step
      without bits. */
  lemma {:induction false} RoundsUseBits(cn: CNodes, c: Cap, capptr: nat, depth: nat)
    requires Continue(cn, c, capptr, depth).Some? && c.ctype.CNode? && Sound(cn, c) && AllSound(cn)
    ensures var (next, remain) := Continue(cn, c, capptr, depth).value;
            && remain == depth - c.Radix() && next.ctype.CNode? && Sound(cn, next)
            && (c.Radix() == 0 && next.Radix() == 0 ==> cn[c.addr][0] == Full(next))
  {
    if c.Radix() == 0 { AndZero(Shr(capptr, depth)); }
  }

  lemma {:induction false} GroundedStops(cn: CNodes, c: Cap, capptr: nat, depth: nat)
    requires Wf(cn) && c.ctype.CNode? && Sound(cn, c)
    ensures Stops(cn, c, capptr, depth)
    decreases depth, if c.Radix() == 0 then 1 else 0, Reach(cn, c.addr)
  {
    if Continue(cn, c, capptr, depth).Some? {
      var (next, remain) := Continue(cn, c, capptr, depth).value;
      RoundsUseBits(cn, c, capptr, depth);
      StepEnds(cn, c, next);
      GroundedStops(cn, next, capptr, remain);
      var n: nat :| After(cn, next, capptr, remain, n).None?;
      assert After(cn, c, capptr, depth, n + 1).None?;
    } else {
      assert After(cn, c, capptr, depth, 1).None?;
    }
  }

  /** A circle can be followed for ever. */
  lemma {:induction false} CircleGoesOn(cn: CNodes, a: nat, k: nat, n: nat)
    requires k > 0 && ZeroPath(cn, a, k) == Some(a)
    ensures ZeroPath(cn, a, n).Some?
    decreases n
  {
    if n < k {
      ZeroPathAdd(cn, a, n, k - n);
    } else {
      ZeroPathAdd(cn, a, k, n - k);
      CircleGoesOn(cn, a, k, n - k);
    }
  }

  /** Following steps without bits, the loop keeps its one bit of depth. */
  lemma {:induction false} LoopFollows(cn: CNodes, c: Cap, n: nat)
    requires c.ctype.CNode? && c.Radix() == 0 && ZeroPath(cn, c.addr, n).Some?
    ensures After(cn, c, 0, 1, n).Some?
    decreases n
  {
    if n > 0 {
      AndZero(Shr(0, 1));
      var next := cn[c.addr][0].cap;
      assert Continue(cn, c, 0, 1) == Some((next, 1));
      LoopFollows(cn, next, n - 1);
    }
  }

  /** Every lookup in a graph of sound capabilities stops, for all addresses and depths, exactly if no
      CNode of radix 0 leads back to itself through slots of CNodes of radix 0. */
  lemma {:induction false} LookupsStopExactly(cn: CNodes)
    requires AllSound(cn)
    ensures (forall c: Cap, capptr: nat, depth: nat :: c.ctype.CNode? && Sound(cn, c) ==> Stops(cn, c, capptr, depth)) <==> Grounded(cn)
  {
    if Grounded(cn) {
      forall c: Cap, capptr: nat, depth: nat | c.ctype.CNode? && Sound(cn, c)
        ensures Stops(cn, c, capptr, depth)
      {
        GroundedStops(cn, c, capptr, depth);
      }
    } else {
      var a: nat, k: nat :| k > 0 && ZeroPath(cn, a, k) == Some(a);
      var c := Cap(CNode, a, 0);
      forall n: nat
        ensures After(cn, c, 0, 1, n).Some?
      {
        CircleGoesOn(cn, a, k, n);
        LoopFollows(cn, c, n);
      }
      assert Sound(cn, c) && !Stops(cn, c, 0, 1);
    }
  }

  /** Such a graph: a CNode of one slot that holds a capability to itself. */
  lemma {:induction false} SelfLoopNeverStops(c: Cap, a: nat)
    requires c == Cap(CNode, a, 0)
    ensures var cn := map[a := [Full(c)]]; AllSound(cn) && !Grounded(cn) && !Stops(cn, c, 0, 1)
  {
    var cn := map[a := [Full(c)]];
    assert ZeroNext(cn, a) == Some(a);
    assert ZeroPath(cn, a, 1) == ZeroPath(cn, a, 0) == Some(a);
    forall n: nat
      ensures After(cn, c, 0, 1, n).Some?
    {
      CircleGoesOn(cn, a, 1, n);
      LoopFollows(cn, c, n);
    }
  }

  // ---------------------------------------------------------------- composing addresses

  /** A string that resolves to a slot holding a CNode capability has been consumed to its last
      bit, and resolving a longer string goes on from that CNode. */
  lemma {:induction false} ResolveOnward(cn: CNodes, c: Cap, b1: seq<bool>, b2: seq<bool>)
    requires Wf(cn) && c.ctype.CNode? && Sound(cn, c) && b2 != []
    requires var r := Resolve(cn, c, b1);
             r.Ok? && cn[r.value.node][r.value.index].Full? && cn[r.value.node][r.value.index].cap.ctype.CNode?
    ensures var r := Resolve(cn, c, b1);
            Resolve(cn, c, b1 + b2) == Resolve(cn, cn[r.value.node][r.value.index].cap, b2)
    decreases |b1|, if c.Radix() == 0 then 1 else 0, Reach(cn, c.addr)
  {
    var k := c.Radix();
    assert (b1 + b2)[..k] == b1[..k] && (b1 + b2)[k..] == b1[k..] + b2;
    var next := cn[c.addr][Value(b1[..k])].cap;
    if b1[k..] == [] {
      assert (b1 + b2)[k..] == b2;
    } else {
      StepEnds(cn, c, next);
      ResolveOnward(cn, next, b1[k..], b2);
    }
  }

  /** Shifting a path up and adding an index appends the bits of the index, even when the shift
      pushes bits out of the word. */
  lemma {:induction false} ComposedPath(p: nat, d: nat, r: nat, i: nat)
    requires i < Pow2(r) && d + r <= 64
    ensures PathBits(Shl(p, r) + i, d + r) == PathBits(p, d) + PathBits(i, r)
  {
    var q := Shl(p, r) + i;
    ShiftedFields(p, r, i);
    PathSplit(q, d, r);
    LowOfLow(p, 64 - r, d);
    PathOfLow(Shr(q, r), p, d);
    LowSmall(i, r);
    PathOfLow(q, i, r);
  }

  lemma {:induction false} ShiftedFields(p: nat, r: nat, i: nat)
    requires i < Pow2(r) && r <= 64
    ensures Shr(Shl(p, r) + i, r) == Low(p, 64 - r)
    ensures Low(Shl(p, r) + i, r) == i
  {
    assert Shl(p, r) == Low(p, 64 - r) * Pow2(r) by {
      Pow2Of64();
      Pow2Add(64 - r, r);
      ShrLow(p, 64 - r);
      TopShiftedOut(Shr(p, 64 - r), Pow2(64 - r), Low(p, 64 - r), Pow2(r));
    }
    Fields(Low(p, 64 - r), r, i);
  }

  lemma {:induction false} TopShiftedOut(hi: nat, m: nat, lo: nat, w: nat)
    requires lo < m && w > 0 && m * w == WORD
    ensures ((hi * m + lo) * w) % WORD == lo * w
  {
    assert (hi * m + lo) * w == hi * (m * w) + lo * w;
    assert lo * w < m * w by { MulMonotone(lo + 1, m, w); MulMonotone(lo, m, w); }
    DivModUnique((hi * m + lo) * w, WORD, hi, lo * w);
  }

  /** The address of slot i of a CNode found at (p, d), as user programs compute it. */
  function SlotAddress(p: nat, d: nat, radix: nat, i: nat): (r: (nat, nat)) { (Shl(p, radix) + i, d + radix) }

  /** If (p, d) leads to a CNode, the composed address leads to slot i of that CNode; the graph
      may have cycles, and the CNode may be the root itself. */
  lemma {:induction false} AddressComposition(cn: CNodes, root: Cap, p: nat, d: nat, i: nat)
    requires Wf(cn) && root.ctype.CNode? && Sound(cn, root)
    requires var r := Resolve(cn, root, PathBits(p, d));
             && r.Ok? && cn[r.value.node][r.value.index].Full?
             && var c := cn[r.value.node][r.value.index].cap;
                c.ctype.CNode? && c.Radix() > 0 && i < Pow2(c.Radix()) && d + c.Radix() <= 64
    ensures var r := Resolve(cn, root, PathBits(p, d)).value;
            var c := cn[r.node][r.index].cap;
            var (p', d') := SlotAddress(p, d, c.Radix(), i);
            Resolve(cn, root, PathBits(p', d')) == Ok(Place(c.addr, i))
  {
    var r := Resolve(cn, root, PathBits(p, d)).value;
    var c := cn[r.node][r.index].cap;
    var k := c.Radix();
    ComposedPath(p, d, k, i);
    ResolveOnward(cn, root, PathBits(p, d), PathBits(i, k));
    ValueOfPath(i, k);
    LowSmall(i, k);
    assert PathBits(i, k)[..k] == PathBits(i, k);
  }

  // ---------------------------------------------------------------- filling and emptying slots

  function Put(cn: CNodes, p: Place, s: Slot): (r: CNodes)
    requires HasSlot(cn, p)
  {
    cn[p.node := cn[p.node][p.index := s]]
  }

  /** Putting s there adds a step that uses no bits. */
  predicate ZeroEdge(cn: CNodes, p: Place, s: Slot)
    requires p.node in cn
  {
    |cn[p.node]| == 1 && s.Full? && s.cap.ctype.CNode? && s.cap.Radix() == 0
  }

  /** That step closes no circle. */
  ghost predicate Harmless(cn: CNodes, p: Place, s: Slot)
    requires p.node in cn
  {
    ZeroEdge(cn, p, s) ==> p.node !in Reach(cn, s.cap.addr)
  }

  /** A path in the new graph is one in the old graph, or goes through the new step; up to there it is
      one in the old graph. */
  lemma {:induction false} PathOrEdge(cn: CNodes, p: Place, s: Slot, a: nat, k: nat) returns (j: nat)
    requires HasSlot(cn, p) && ZeroEdge(cn, p, s) && ZeroPath(Put(cn, p, s), a, k).Some?
    ensures j <= k
    ensures j == k ==> ZeroPath(cn, a, k) == ZeroPath(Put(cn, p, s), a, k)
    ensures j < k ==> ZeroPath(cn, a, j) == Some(p.node) && ZeroPath(Put(cn, p, s), s.cap.addr, k - j - 1) == ZeroPath(Put(cn, p, s), a, k)
    decreases k
  {
    var cn' := Put(cn, p, s);
    if k == 0 || a == p.node {
      j := 0;
    } else {
      assert ZeroNext(cn', a) == ZeroNext(cn, a);
      var i := PathOrEdge(cn, p, s, ZeroNext(cn', a).value, k - 1);
      j := i + 1;
    }
  }

  /** Paths of the old graph that lead to an empty slot are paths of the new graph. */
  lemma {:induction false} OldPath(cn: CNodes, p: Place, s: Slot, a: nat, k: nat)
    requires HasSlot(cn, p) && SlotEmpty(cn, p) && ZeroPath(cn, a, k).Some?
    ensures ZeroPath(Put(cn, p, s), a, k) == ZeroPath(cn, a, k)
    decreases k
  {
    if k > 0 {
      assert ZeroNext(Put(cn, p, s), a) == ZeroNext(cn, a);
      OldPath(cn, p, s, ZeroNext(cn, a).value, k - 1);
    }
  }

  ghost predicate SlotEmpty(cn: CNodes, p: Place)
    requires HasSlot(cn, p)
  {
    cn[p.node][p.index].Empty?
  }

  /** From where the slot cannot be reached, the new graph has no new paths. */
  lemma {:induction false} StaysOld(cn: CNodes, p: Place, s: Slot, b: nat, m: nat)
    requires HasSlot(cn, p) && ZeroEdge(cn, p, s) && p.node !in Reach(cn, b) && ZeroPath(Put(cn, p, s), b, m).Some?
    ensures ZeroPath(cn, b, m) == ZeroPath(Put(cn, p, s), b, m)
  {
    var j := PathOrEdge(cn, p, s, b, m);
  }

  lemma {:induction false} NotAround(cn: CNodes, n: nat, b: nat, m: nat, a: nat, j: nat)
    requires n in cn && n !in Reach(cn, b) && ZeroPath(cn, a, j) == Some(n)
    ensures ZeroPath(cn, b, m) != Some(a)
  {
    ZeroPathAdd(cn, b, m, j);
  }

  lemma {:induction false} NoCircle(cn: CNodes, p: Place, s: Slot, a: nat, k: nat)
    requires Grounded(cn) && HasSlot(cn, p) && ZeroEdge(cn, p, s) && p.node !in Reach(cn, s.cap.addr) && k > 0
    ensures ZeroPath(Put(cn, p, s), a, k) != Some(a)
  {
    var b := s.cap.addr;
    if ZeroPath(Put(cn, p, s), a, k).Some? {
      var j := PathOrEdge(cn, p, s, a, k);
      if j < k {
        StaysOld(cn, p, s, b, k - j - 1);
        NotAround(cn, p.node, b, k - j - 1, a, j);
      }
    }
  }

  /** Filling an empty slot closes a circle exactly if it adds a step without bits to a CNode from which
      the slot can be reached without bits. */
  lemma {:induction false} FillGrounded(cn: CNodes, p: Place, s: Slot)
    requires Grounded(cn) && HasSlot(cn, p) && SlotEmpty(cn, p)
    ensures Grounded(Put(cn, p, s)) <==> Harmless(cn, p, s)
  {
    var cn' := Put(cn, p, s);
    if !ZeroEdge(cn, p, s) {
      FewerSteps(cn, cn');
    } else if p.node in Reach(cn, s.cap.addr) {
      var k: nat :| ZeroPath(cn, s.cap.addr, k) == Some(p.node);
      OldPath(cn, p, s, s.cap.addr, k);
      assert ZeroNext(cn', p.node) == Some(s.cap.addr);
      assert ZeroPath(cn', p.node, k + 1) == Some(p.node);
    } else {
      forall a: nat, k: nat | k > 0
        ensures ZeroPath(cn', a, k) != Some(a)
      {
        NoCircle(cn, p, s, a, k);
      }
    }
  }

  lemma {:induction false} PutKeepsSound(cn: CNodes, p: Place, s: Slot)
    requires AllSound(cn) && HasSlot(cn, p) && (s.Full? ==> Sound(cn, s.cap))
    ensures AllSound(Put(cn, p, s))
    ensures forall c :: Sound(cn, c) ==> Sound(Put(cn, p, s), c)
  {
  }

  /** Emptying a slot, or putting there what adds no step without bits, or what is harmless in an empty
      slot, keeps the graph well formed. */
  lemma {:induction false} PutKeepsWf(cn: CNodes, p: Place, s: Slot)
    requires Wf(cn) && HasSlot(cn, p) && (s.Full? ==> Sound(cn, s.cap))
    requires !ZeroEdge(cn, p, s) || (SlotEmpty(cn, p) && Harmless(cn, p, s))
    ensures Wf(Put(cn, p, s))
    ensures forall c :: Sound(cn, c) ==> Sound(Put(cn, p, s), c)
  {
    PutKeepsSound(cn, p, s);
    if ZeroEdge(cn, p, s) {
      FillGrounded(cn, p, s);
    } else {
      FewerSteps(cn, Put(cn, p, s));
    }
  }

  /** Filling an empty slot moves no address that resolves to an occupied one. */
  lemma {:induction false} FillKeepsResolved(cn: CNodes, p: Place, s: Slot, c: Cap, bits: seq<bool>)
    requires Wf(cn) && HasSlot(cn, p) && SlotEmpty(cn, p) && (s.Full? ==> Sound(cn, s.cap)) && Harmless(cn, p, s)
    requires c.ctype.CNode? && Sound(cn, c)
    requires var r := Resolve(cn, c, bits); r.Ok? && cn[r.value.node][r.value.index].Full?
    ensures Wf(Put(cn, p, s)) && Sound(Put(cn, p, s), c)
    ensures Resolve(Put(cn, p, s), c, bits) == Resolve(cn, c, bits)
    decreases |bits|, if c.Radix() == 0 then 1 else 0, Reach(cn, c.addr)
  {
    PutKeepsWf(cn, p, s);
    var k := c.Radix();
    var i := Value(bits[..k]);
    assert Put(cn, p, s)[c.addr][i] == cn[c.addr][i];
    var next := cn[c.addr][i].cap;
    if bits[k..] != [] && next.ctype.CNode? {
      StepEnds(cn, c, next);
      FillKeepsResolved(cn, p, s, next, bits[k..]);
    }
  }

  /** After the kernel has filled the empty slot i of the CNode at (p, d), the composed address
      designates exactly that slot. */
  lemma {:induction false} HandleDesignatesFilledSlot(cn: CNodes, root: Cap, p: nat, d: nat, i: nat, s: Slot)
    requires Wf(cn) && root.ctype.CNode? && Sound(cn, root) && (s.Full? ==> Sound(cn, s.cap))
    requires var r := Resolve(cn, root, PathBits(p, d));
             && r.Ok? && cn[r.value.node][r.value.index].Full?
             && var c := cn[r.value.node][r.value.index].cap;
                c.ctype.CNode? && c.Radix() > 0 && i < Pow2(c.Radix()) && d + c.Radix() <= 64 && cn[c.addr][i].Empty?
    ensures var r := Resolve(cn, root, PathBits(p, d)).value;
            var c := cn[r.node][r.index].cap;
            var cn' := Put(cn, Place(c.addr, i), s);
            var (p', d') := SlotAddress(p, d, c.Radix(), i);
            && Wf(cn') && Sound(cn', root)
            && Resolve(cn', root, PathBits(p', d')) == Ok(Place(c.addr, i))
            && cn'[c.addr][i] == s
  {
    var r := Resolve(cn, root, PathBits(p, d)).value;
    var c := cn[r.node][r.index].cap;
    var pl := Place(c.addr, i);
    Pow2Monotone(1, c.Radix());
    FillKeepsResolved(cn, pl, s, root, PathBits(p, d));
    AddressComposition(Put(cn, pl, s), root, p, d, i);
  }

  /** For a CNode of radix 0 the composed address is the address of the CNode itself, so it finds the
      slot of that capability and never the slot of the CNode. */
  lemma {:induction false} CompositionNeedsRadix(cn: CNodes, root: Cap, p: nat, d: nat)
    requires Wf(cn) && root.ctype.CNode? && Sound(cn, root) && p < WORD
    requires var r := Resolve(cn, root, PathBits(p, d));
             && r.Ok? && cn[r.value.node][r.value.index].Full?
             && var c := cn[r.value.node][r.value.index].cap; c.ctype.CNode? && c.Radix() == 0
    ensures var r := Resolve(cn, root, PathBits(p, d)).value;
            var c := cn[r.node][r.index].cap;
            var (p', d') := SlotAddress(p, d, 0, 0);
            && Resolve(cn, root, PathBits(p', d')) == Ok(r)
            && r != Place(c.addr, 0)
  {
    var r := Resolve(cn, root, PathBits(p, d)).value;
    var c := cn[r.node][r.index].cap;
    ShlIs(p, 0, 1);
    SmallMod(p, WORD);
    assert ZeroPath(cn, c.addr, 1) != Some(c.addr);
  }
}
