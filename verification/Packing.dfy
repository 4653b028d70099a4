/**
 The packed words of the kernel: kernel-virtual addresses, Sv48 page-table entries,
 capability words and derivation links, as arithmetic on naturals.  Beside each word
 stands a lemma `...Bits` proving that the shifts and masks of the source compute
 exactly that arithmetic, and a lemma giving its inverse.
 */
module Packing {
  import opened Bits

  const PAGE_SIZE: nat := 4096
  const KERNEL_V_ADDR_PFX: nat := 0xffff_8000_0000_0000
  const PAGE_V: nat := 1
  const PAGE_R: nat := 2
  const PAGE_W: nat := 4
  const PAGE_X: nat := 8
  const PAGE_U: nat := 16

  /** Physical memory as the kernel can reach it through its own mapping. */
  predicate IsPhys(a: nat) { a < 0x8000_0000_0000 }

  /** A page-aligned physical address. */
  predicate IsFrame(a: nat) { a < 0x8000_0000_0000 && a % 4096 == 0 }

  // ---------------------------------------------------------------- addresses

  function PhysToKernel(p: nat): (v: nat)
    requires IsPhys(p)
  {
    KERNEL_V_ADDR_PFX + p
  }

  function KernelToPhys(v: nat): (p: nat) { v % 0x8000_0000_0000 }

  /** Setting and clearing the kernel prefix, and that each undoes the other. */
  lemma {:induction false} KernelAddressBits(p: nat)
    requires IsPhys(p)
    ensures Or(p, KERNEL_V_ADDR_PFX) == PhysToKernel(p)
    ensures And(PhysToKernel(p), Not(KERNEL_V_ADDR_PFX)) == KernelToPhys(PhysToKernel(p)) == p
  {
    Pow2Of48();
    OrField(0x1ffff, 47, p, 0x8000_0000_0000);
    MaskLow(KERNEL_V_ADDR_PFX + p, 47, 0x8000_0000_0000);
    DivModUnique(KERNEL_V_ADDR_PFX + p, 0x8000_0000_0000, 0x1ffff, p);
  }

  /** The weight of one entry of a level-`idx` table, in pages. */
  function Span(idx: nat): (r: nat)
    requires idx <= 3
    ensures r > 0
  {
    if idx == 0 then 1 else if idx == 1 then 512 else if idx == 2 then 0x4_0000 else 0x800_0000
  }

  /** The index into the table of level `idx` that a virtual address selects. */
  function Vpn(vaddr: nat, idx: nat): (r: nat)
    requires idx <= 3
    ensures r < 512
  {
    vaddr / 4096 / Span(idx) % 512
  }

  lemma {:induction false} VpnBits(a: nat, idx: nat)
    requires idx <= 3
    ensures And(Shr(a, 12 + idx * 9), 0x1ff) == Vpn(a, idx)
  {
    Pow2Small();
    MaskLow(Shr(a, 12 + idx * 9), 9, 512);
    ShrIs(a, 12, 4096);
    ShrShr(a, 12, idx * 9);
    ShrIs(a / 4096, idx * 9, Span(idx)) by { SpanIsPow2(idx); }
  }

  lemma {:induction false} SpanIsPow2(idx: nat)
    requires idx <= 3
    ensures Span(idx) == Pow2(idx * 9)
  {
    Pow2Small();
    Pow2Add(9, 9);
    Pow2Add(18, 9);
  }

  /** The 36-bit virtual page number that the four indices spell. */
  function PageNumber(vaddr: nat): (r: nat) { vaddr / 4096 % 0x10_0000_0000 }

  /** Two addresses select the same four indices exactly when they lie in the same page. */
  lemma {:induction false} SameIndicesSamePage(a: nat, b: nat)
    ensures PageNumber(a) == PageNumber(b) <==>
            Vpn(a, 0) == Vpn(b, 0) && Vpn(a, 1) == Vpn(b, 1) && Vpn(a, 2) == Vpn(b, 2) && Vpn(a, 3) == Vpn(b, 3)
  {
    FourDigits(a / 4096);
    FourDigits(b / 4096);
    DigitsDetermine(Vpn(a, 0), Vpn(a, 1), Vpn(a, 2), Vpn(a, 3), Vpn(b, 0), Vpn(b, 1), Vpn(b, 2), Vpn(b, 3));
  }

  lemma {:induction false} FourDigits(n: nat)
    ensures n % 0x10_0000_0000 ==
            n % 512 + 512 * (n / 512 % 512 + 512 * (n / 0x4_0000 % 512 + 512 * (n / 0x800_0000 % 512)))
  {
    var a, b, c := n / 512, n / 0x4_0000, n / 0x800_0000;
    assert a / 512 == b && b / 512 == c;
    var low := n % 512 + 512 * (a % 512 + 512 * (b % 512 + 512 * (c % 512)));
    assert c == c / 512 * 512 + c % 512;
    assert n == c / 512 * 0x10_0000_0000 + low;
    DivModUnique(n, 0x10_0000_0000, c / 512, low);
  }

  lemma {:induction false} DigitsDetermine(a0: nat, a1: nat, a2: nat, a3: nat, b0: nat, b1: nat, b2: nat, b3: nat)
    requires a0 < 512 && a1 < 512 && a2 < 512 && b0 < 512 && b1 < 512 && b2 < 512
    ensures a0 + 512 * (a1 + 512 * (a2 + 512 * a3)) == b0 + 512 * (b1 + 512 * (b2 + 512 * b3)) <==>
            a0 == b0 && a1 == b1 && a2 == b2 && a3 == b3
  {
    if a0 + 512 * (a1 + 512 * (a2 + 512 * a3)) == b0 + 512 * (b1 + 512 * (b2 + 512 * b3)) {
      assert a1 + 512 * (a2 + 512 * a3) == b1 + 512 * (b2 + 512 * b3);
      assert a2 + 512 * a3 == b2 + 512 * b3;
    }
  }

  // ---------------------------------------------------------------- page-table entries

  /** An entry: page number from bit 10 up, ten flag bits below. */
  function PteWrite(addr: nat, flags: nat): (w: nat) { addr / 4096 * 1024 + flags }

  function PteAddress(w: nat): (a: nat) { w % 0x4000_0000_0000_0000 / 1024 * 4096 }

  function PteFlags(w: nat): (f: nat) { w % 1024 }

  predicate PteValid(w: nat) { w % 2 == 1 }

  lemma {:induction false} PteWriteBits(addr: nat, flags: nat)
    requires IsPhys(addr) && flags < 1024
    ensures Or(Shl(Shr(addr, 12), 10), flags) == PteWrite(addr, flags)
  {
    Pow2Small();
    ShrIs(addr, 12, 4096);
    ShlIs(addr / 4096, 10, 1024);
    OrField(addr / 4096, 10, flags, 1024);
  }

  lemma {:induction false} PteAddressBits(w: nat)
    ensures And(Shl(w, 2), Not(0xfff)) == PteAddress(w)
    ensures And(w, PAGE_V) != 0 <==> PteValid(w)
  {
    Pow2Small();
    ShlIs(w, 2, 4);
    var v := w % 0x4000_0000_0000_0000;
    assert w * 4 % WORD == v * 4 by {
      DivModUnique(w * 4, WORD, w / 0x4000_0000_0000_0000, v * 4);
    }
    MaskHigh(v * 4, 12, 4096);
    assert v * 4 == v / 1024 * 4096 + v % 1024 * 4;
    DivModUnique(v * 4, 4096, v / 1024, v % 1024 * 4);
    MaskLow(w, 1, 2);
  }

  /** What is written into an entry is what is read out of it. */
  lemma {:induction false} PteRoundTrip(addr: nat, flags: nat)
    requires IsFrame(addr) && flags < 1024
    ensures PteAddress(PteWrite(addr, flags)) == addr
    ensures PteFlags(PteWrite(addr, flags)) == flags
    ensures PteValid(PteWrite(addr, flags)) <==> flags % 2 == 1
  {
    var n, w := addr / 4096, PteWrite(addr, flags);
    assert n * 4096 == addr;
    assert w < 0x4000_0000_0000_0000;
    SmallMod(w, 0x4000_0000_0000_0000);
    DivModUnique(w, 1024, n, flags);
    assert w == 2 * (n * 512) + flags;
  }

  /** Flags asked for by a user: execute, write, read in Unix order, put in entry order. */
  function UserFlags(flags: nat): (r: nat)
    ensures r < 16 && r % 2 == 0
  {
    (if flags % 2 == 1 then PAGE_X else 0) + (if flags / 2 % 2 == 1 then PAGE_W else 0)
    + (if flags / 4 % 2 == 1 then PAGE_R else 0)
  }

  // ---------------------------------------------------------------- capability words

  /** The two halves, of 16 and 32 bits, in which a capability keeps an object address. */
  datatype SplitAddress = SplitAddress(top: nat, bottom: nat)

  function SetAddress(address: nat): (s: SplitAddress)
  {
    SplitAddress(address / 0x1_0000_0000 % 0x1_0000, address % 0x1_0000_0000)
  }

  function GetAddress(s: SplitAddress): (a: nat) { s.top * 0x1_0000_0000 + s.bottom }

  lemma {:induction false} SetAddressBits(address: nat)
    ensures SetAddress(address) == SplitAddress(And(Shr(address, 32), 0xffff), And(address, 0xffff_ffff))
  {
    Pow2Of16(); Pow2Of32();
    ShrIs(address, 32, 0x1_0000_0000);
    MaskLow(address / 0x1_0000_0000, 16, 0x1_0000);
    MaskLow(address, 32, 0x1_0000_0000);
  }

  lemma {:induction false} GetAddressBits(s: SplitAddress)
    requires s.top < 0x1_0000 && s.bottom < 0x1_0000_0000
    ensures Or(Shl(s.top, 32), s.bottom) == GetAddress(s)
  {
    Pow2Of32();
    ShlIs(s.top, 32, 0x1_0000_0000);
    OrField(s.top, 32, s.bottom, 0x1_0000_0000);
  }

  /** Exactly the 48-bit addresses survive being stored in a capability. */
  lemma {:induction false} CapAddressRoundTrip(address: nat)
    ensures GetAddress(SetAddress(address)) == address % 0x1_0000_0000_0000
    ensures GetAddress(SetAddress(address)) == address <==> address < 0x1_0000_0000_0000
  {
    var hi := address / 0x1_0000_0000;
    assert hi == hi / 0x1_0000 * 0x1_0000 + hi % 0x1_0000;
    DivModUnique(address, 0x1_0000_0000_0000, hi / 0x1_0000,
                 hi % 0x1_0000 * 0x1_0000_0000 + address % 0x1_0000_0000);
  }

  /** The exponent of the largest power of two not above `n`. */
  function Ilog2(n: nat): (k: nat)
    requires n > 0
    ensures Pow2(k) <= n < 2 * Pow2(k)
  {
    if n == 1 then 0 else Ilog2(n / 2) + 1
  }

  lemma {:induction false} Ilog2OfPow2(k: nat)
    ensures Ilog2(Pow2(k)) == k
  {
    if k > 0 {
      Ilog2OfPow2(k - 1);
      assert Pow2(k) / 2 == Pow2(k - 1);
    }
  }

  /** Untyped word: free index in the top 48 bits, device bit 6, block exponent in bits 5..0. */
  function UntypedWord(freePhys: nat, bits: nat): (w: nat) { freePhys * 0x1_0000 + bits }

  function UntypedFree(w: nat): (p: nat) { w / 0x1_0000 }

  function UntypedBits(w: nat): (k: nat) { w % 64 }

  predicate UntypedIsDevice(w: nat) { w / 64 % 2 == 1 }

  lemma {:induction false} UntypedWordBits(freePhys: nat, bits: nat)
    requires freePhys < 0x1_0000_0000_0000 && bits < 64
    ensures Or(Or(Shl(freePhys, 16), Shl(0, 6)), Ilog2(Pow2(bits))) == UntypedWord(freePhys, bits)
  {
    Pow2Of16();
    Ilog2OfPow2(bits);
    ShlIs(freePhys, 16, 0x1_0000);
    ShlIs(0, 6, Pow2(6));
    OrZero(freePhys * 0x1_0000);
    OrField(freePhys, 16, bits, 0x1_0000);
  }

  lemma {:induction false} UntypedFieldBits(w: nat)
    ensures Shr(w, 16) == UntypedFree(w)
    ensures And(w, 0x3f) == UntypedBits(w)
    ensures And(Shr(w, 6), 1) == 1 <==> UntypedIsDevice(w)
  {
    Pow2Small(); Pow2Of16();
    ShrIs(w, 16, 0x1_0000);
    ShrIs(w, 6, 64);
    MaskLow(w, 6, 64);
    MaskLow(w / 64, 1, 2);
  }

  lemma {:induction false} UntypedRoundTrip(freePhys: nat, bits: nat)
    requires bits < 64
    ensures UntypedFree(UntypedWord(freePhys, bits)) == freePhys
    ensures UntypedBits(UntypedWord(freePhys, bits)) == bits
    ensures !UntypedIsDevice(UntypedWord(freePhys, bits))
  {
    var w := UntypedWord(freePhys, bits);
    DivModUnique(w, 0x1_0000, freePhys, bits);
    DivModUnique(w, 64, freePhys * 1024, bits);
  }

  /** Page and table words: bit 49 says root, bit 48 mapped, bits 47..0 the mapped address. */
  function SetMapped(vaddr: nat): (w: nat) { 0x1_0000_0000_0000 + vaddr % 0x1_0000_0000_0000 }

  function SetRoot(vaddr: nat): (w: nat) { 0x3_0000_0000_0000 + vaddr % 0x1_0000_0000_0000 }

  predicate IsMapped(w: nat) { w / 0x1_0000_0000_0000 % 2 == 1 }

  predicate IsRoot(w: nat) { w / 0x2_0000_0000_0000 % 2 == 1 }

  function MappedAddress(w: nat): (v: nat) { w % 0x1_0000_0000_0000 }

  /** From a clear word, marking it mapped (and then as a root) gives these words. */
  lemma {:induction false} SetMappedBits(vaddr: nat)
    ensures Or(0, Or(Shl(1, 48), And(vaddr, 0xffff_ffff_ffff))) == SetMapped(vaddr)
    ensures Or(SetMapped(vaddr), Shl(1, 49)) == SetRoot(vaddr)
  {
    var low := vaddr % 0x1_0000_0000_0000;
    Pow2Of48();
    MaskLow(vaddr, 48, 0x1_0000_0000_0000);
    ShlIs(1, 48, 0x1_0000_0000_0000);
    OrField(1, 48, low, 0x1_0000_0000_0000);
    OrZero(0x1_0000_0000_0000 + low);
    ShlIs(1, 49, 0x2_0000_0000_0000);
    OrField(1, 49, 0x1_0000_0000_0000 + low, 0x2_0000_0000_0000);
  }

  lemma {:induction false} MappedFieldBits(w: nat)
    ensures And(Shr(w, 48), 1) == 1 <==> IsMapped(w)
    ensures And(Shr(w, 49), 1) == 1 <==> IsRoot(w)
    ensures And(w, Not(0xffff_0000_0000_0000)) == MappedAddress(w)
  {
    Pow2Small(); Pow2Of48();
    ShrIs(w, 48, 0x1_0000_0000_0000);
    ShrIs(w, 49, 0x2_0000_0000_0000);
    MaskLow(w / 0x1_0000_0000_0000, 1, 2);
    MaskLow(w / 0x2_0000_0000_0000, 1, 2);
    MaskLow(w, 48, 0x1_0000_0000_0000);
  }

  /** The address a page capability keeps selects the same index at every level, hence the
      same page, as the address it was mapped at; a root word is both mapped and a root. */
  lemma {:induction false} MappedAddressRoundTrip(vaddr: nat)
    ensures IsMapped(SetMapped(vaddr)) && !IsRoot(SetMapped(vaddr))
    ensures IsMapped(SetRoot(vaddr)) && IsRoot(SetRoot(vaddr))
    ensures MappedAddress(SetMapped(vaddr)) == vaddr % 0x1_0000_0000_0000
    ensures PageNumber(MappedAddress(SetMapped(vaddr))) == PageNumber(vaddr)
    ensures forall l :: 0 <= l <= 3 ==> Vpn(MappedAddress(SetMapped(vaddr)), l) == Vpn(vaddr, l)
  {
    var low := vaddr % 0x1_0000_0000_0000;
    HighBits(SetMapped(vaddr), 1, low);
    HighBits(SetRoot(vaddr), 3, low);
    LowBitsKeepPage(vaddr);
    SameIndicesSamePage(low, vaddr);
  }

  lemma {:induction false} HighBits(w: nat, high: nat, low: nat)
    requires low < 0x1_0000_0000_0000 && w == high * 0x1_0000_0000_0000 + low
    ensures (IsMapped(w) <==> high % 2 == 1) && (IsRoot(w) <==> high / 2 % 2 == 1) && MappedAddress(w) == low
  {
    DivModUnique(w, 0x1_0000_0000_0000, high, low);
    Halved(w);
  }

  /** Marking a word that holds something already: it is mapped afterwards, and a root if it was one, but the address
      that is kept has the bits of both, so that it is that of the mapping exactly if the word's page bits are
      among those of the address. */
  lemma {:induction false} MarkedWord(w: nat, vaddr: nat)
    ensures IsMapped(Or(w, SetMapped(vaddr))) && (IsRoot(Or(w, SetMapped(vaddr))) <==> IsRoot(w))
    ensures PageNumber(MappedAddress(Or(w, SetMapped(vaddr)))) == Or(PageNumber(w), PageNumber(vaddr))
  {
    var m, low := SetMapped(vaddr), vaddr % 0x1_0000_0000_0000;
    Pow2Of48();
    OrSplit(w, m, 48);
    FieldsOf(w, 48, 0x1_0000_0000_0000);
    FieldsOf(m, 48, 0x1_0000_0000_0000);
    FieldsOf(Or(w, m), 48, 0x1_0000_0000_0000);
    DivModUnique(m, 0x1_0000_0000_0000, 1, low);
    MarkedBits(w, Or(w, m));
    OrPages(w % 0x1_0000_0000_0000, low);
    LowBitsKeepPage(w);
    LowBitsKeepPage(vaddr);
  }

  lemma {:induction false} MarkedBits(w: nat, r: nat)
    requires r / 0x1_0000_0000_0000 == Or(w / 0x1_0000_0000_0000, 1)
    ensures IsMapped(r) && (IsRoot(r) <==> IsRoot(w))
  {
    var h := w / 0x1_0000_0000_0000;
    OrBits(h, 1);
    OrZero(h / 2);
    Halved(w);
    Halved(r);
  }

  lemma {:induction false} Halved(w: nat)
    ensures w / 0x2_0000_0000_0000 == w / 0x1_0000_0000_0000 / 2
  {
    var q, r := w / 0x2_0000_0000_0000, w % 0x2_0000_0000_0000;
    DivModUnique(w, 0x1_0000_0000_0000, 2 * q + r / 0x1_0000_0000_0000, r % 0x1_0000_0000_0000);
  }

  lemma {:induction false} OrPages(a: nat, b: nat)
    requires a < 0x1_0000_0000_0000 && b < 0x1_0000_0000_0000
    ensures PageNumber(Or(a, b)) == Or(PageNumber(a), PageNumber(b))
  {
    OrAbove(a, b);
    OrBelow(a / 4096, b / 4096);
  }

  lemma {:induction false} OrAbove(a: nat, b: nat)
    ensures Or(a, b) / 4096 == Or(a / 4096, b / 4096)
  {
    Pow2Small();
    OrSplit(a, b, 12);
    FieldsOf(a, 12, 4096);
    FieldsOf(b, 12, 4096);
    FieldsOf(Or(a, b), 12, 4096);
  }

  lemma {:induction false} OrBelow(a: nat, b: nat)
    ensures Or(a, b) % 0x10_0000_0000 == Or(a % 0x10_0000_0000, b % 0x10_0000_0000)
  {
    Pow2Small();
    Pow2Add(9, 9);
    Pow2Add(18, 18);
    OrSplit(a, b, 36);
    FieldsOf(a, 36, 0x10_0000_0000);
    FieldsOf(b, 36, 0x10_0000_0000);
    FieldsOf(Or(a, b), 36, 0x10_0000_0000);
  }

  /** A mapped word that is marked as a root is both. */
  lemma {:induction false} MarkedRoot(w: nat)
    requires IsMapped(w)
    ensures IsRoot(Or(w, 0x2_0000_0000_0000)) && IsMapped(Or(w, 0x2_0000_0000_0000))
  {
    var r, h := Or(w, 0x2_0000_0000_0000), w / 0x1_0000_0000_0000;
    Pow2Of48();
    OrSplit(w, 0x2_0000_0000_0000, 48);
    FieldsOf(w, 48, 0x1_0000_0000_0000);
    FieldsOf(r, 48, 0x1_0000_0000_0000);
    FieldsOf(0x2_0000_0000_0000, 48, 0x1_0000_0000_0000);
    OrBits(h, 2);
    OrBits(h / 2, 1);
    Halved(r);
  }

  lemma {:induction false} ClearWord()
    ensures !IsMapped(0) && !IsRoot(0)
  {
  }

  lemma {:induction false} LowBitsKeepPage(vaddr: nat)
    ensures PageNumber(vaddr % 0x1_0000_0000_0000) == PageNumber(vaddr)
  {
    var q, low := vaddr / 0x1_0000_0000_0000, vaddr % 0x1_0000_0000_0000;
    assert vaddr / 4096 == q * 0x10_0000_0000 + low / 4096;
    DivModUnique(vaddr / 4096, 0x10_0000_0000, q, low / 4096);
  }

  // ---------------------------------------------------------------- derivation links

  /** A link word: 48 address bits above 16 bits of padding. */
  function LinkSet(word: nat, entry: nat): (w: nat) { Or(And(word, 0xffff), Shl(entry, 16)) }

  /** Reading back a link; 0 stands for "no neighbour". */
  function LinkGet(w: nat): (entry: nat)
  {
    if Shr(w, 16) == 0 then 0 else Or(Shr(w, 16), KERNEL_V_ADDR_PFX)
  }

  /** A link to an entry in kernel memory is read back as that entry, although the shift
      discards the top sixteen bits of its address; the padding keeps its value. */
  lemma {:induction false} LinkRoundTrip(word: nat, phys: nat)
    requires IsPhys(phys)
    ensures LinkGet(LinkSet(word, PhysToKernel(phys))) == PhysToKernel(phys)
    ensures And(LinkSet(word, PhysToKernel(phys)), 0xffff) == And(word, 0xffff)
  {
    var low, pad := 0x8000_0000_0000 + phys, word % 0x1_0000;
    LinkSetIs(word, phys);
    LinkFields(low, pad);
    PrefixAbsorbs(phys);
    Pow2Of16();
    MaskLow(word, 16, 0x1_0000);
  }

  lemma {:induction false} LinkSetIs(word: nat, phys: nat)
    requires IsPhys(phys)
    ensures LinkSet(word, KERNEL_V_ADDR_PFX + phys) == (0x8000_0000_0000 + phys) * 0x1_0000 + word % 0x1_0000
  {
    var low, pad := 0x8000_0000_0000 + phys, word % 0x1_0000;
    Pow2Of16();
    ShlIs(KERNEL_V_ADDR_PFX + phys, 16, 0x1_0000);
    DivModUnique((KERNEL_V_ADDR_PFX + phys) * 0x1_0000, WORD, 0xffff, low * 0x1_0000);
    MaskLow(word, 16, 0x1_0000);
    OrField(low, 16, pad, 0x1_0000);
  }

  lemma {:induction false} LinkFields(low: nat, pad: nat)
    requires pad < 0x1_0000
    ensures Shr(low * 0x1_0000 + pad, 16) == low && And(low * 0x1_0000 + pad, 0xffff) == pad
  {
    Pow2Of16();
    MaskLow(low * 0x1_0000 + pad, 16, 0x1_0000);
    ShrIs(low * 0x1_0000 + pad, 16, 0x1_0000);
  }

  /** Bit 47 is part of the kernel prefix, so or-ing it in twice changes nothing. */
  lemma {:induction false} PrefixAbsorbs(phys: nat)
    requires IsPhys(phys)
    ensures Or(0x8000_0000_0000 + phys, KERNEL_V_ADDR_PFX) == KERNEL_V_ADDR_PFX + phys
  {
    Pow2Of48();
    OrField(1, 47, phys, 0x8000_0000_0000);
    OrAssociates(phys, 0x8000_0000_0000, KERNEL_V_ADDR_PFX);
    assert Or(0x8000_0000_0000, KERNEL_V_ADDR_PFX) == KERNEL_V_ADDR_PFX by {
      OrScaled(1, 0x1ffff, 47);
      OrZero(0xffff);
    }
    KernelAddressBits(phys);
  }
}
