/**
 Machine words as natural numbers.  The kernel is a 64-bit program: shifts, masks
 and alignment are written here as the source writes them, on naturals below 2^64,
 and each is tied to the division or remainder it stands for.
 */
module Bits {

  const WORD: nat := 0x1_0000_0000_0000_0000

  function Pow2(n: nat): (r: nat)
    ensures r > 0
  {
    if n == 0 then 1 else 2 * Pow2(n - 1)
  }

  /** Bitwise or. */
  function Or(a: nat, b: nat): (r: nat)
    decreases a + b
  {
    if a == 0 && b == 0 then 0
    else (if a % 2 == 1 || b % 2 == 1 then 1 else 0) + 2 * Or(a / 2, b / 2)
  }

  /** Bitwise and. */
  function And(a: nat, b: nat): (r: nat)
    decreases a + b
  {
    if a == 0 && b == 0 then 0
    else (if a % 2 == 1 && b % 2 == 1 then 1 else 0) + 2 * And(a / 2, b / 2)
  }

  /** Bitwise complement of a 64-bit word. */
  function Not(a: nat): (r: nat)
    requires a < WORD
  {
    WORD - 1 - a
  }

  /** Left shift of a 64-bit word: bits shifted out are lost. */
  function Shl(a: nat, k: nat): (r: nat)
  {
    (a * Pow2(k)) % WORD
  }

  /** Right shift, one bit at a time. */
  function Shr(a: nat, k: nat): (r: nat)
  {
    if k == 0 then a else Shr(a / 2, k - 1)
  }

  /** The low k bits of a word. */
  function Low(a: nat, k: nat): (r: nat)
    ensures r < Pow2(k) && r <= a
  {
    if k == 0 then 0 else a % 2 + 2 * Low(a / 2, k - 1)
  }

  /** `align_up`: `align` is a power of two and the sum does not leave the word. */
  function AlignUp(value: nat, align: nat): (r: nat)
    requires 0 < align && value + align - 1 < WORD
  {
    And(value + align - 1, Not(align - 1))
  }

  // ---------------------------------------------------------------- arithmetic

  lemma {:induction false} MulMonotone(a: nat, b: nat, m: nat)
    requires a <= b
    ensures a * m <= b * m
    ensures (a + 1) * m == a * m + m
  {
  }

  lemma {:induction false} Doubled(a: nat, p: nat)
    ensures a * (2 * p) == 2 * (a * p)
  {
  }

  lemma {:induction false} DivModUnique(a: nat, m: nat, q: nat, r: nat)
    requires m > 0 && r < m && a == q * m + r
    ensures a / m == q && a % m == r
  {
    var q' := a / m;
    assert a == q' * m + a % m;
    if q' < q {
      MulMonotone(q' + 1, q, m); MulMonotone(q', q, m);
    } else if q < q' {
      MulMonotone(q + 1, q', m); MulMonotone(q, q', m);
    }
  }

  lemma {:induction false} SmallMod(a: nat, m: nat)
    requires a < m
    ensures a % m == a
  {
  }

  // ---------------------------------------------------------------- powers of two

  lemma {:induction false} Pow2Small()
    ensures Pow2(1) == 2 && Pow2(2) == 4 && Pow2(3) == 8 && Pow2(5) == 32 && Pow2(6) == 64
    ensures Pow2(9) == 512 && Pow2(10) == 1024 && Pow2(12) == 4096
  {
    Pow2Add(9, 3);
  }

  lemma {:induction false} Pow2Of16()
    ensures Pow2(16) == 0x1_0000
  {
    Pow2Small();
    Pow2Add(10, 6);
  }

  lemma {:induction false} Pow2Of32()
    ensures Pow2(32) == 0x1_0000_0000
  {
    Pow2Of16();
    Pow2Add(16, 16);
  }

  lemma {:induction false} Pow2Of48()
    ensures Pow2(44) == 0x1000_0000_0000 && Pow2(47) == 0x8000_0000_0000
    ensures Pow2(48) == 0x1_0000_0000_0000 && Pow2(49) == 0x2_0000_0000_0000
  {
    Pow2Small();
    Pow2Of32();
    Pow2Add(32, 12);
    Pow2Add(44, 3);
  }

  lemma {:induction false} Pow2Of64()
    ensures Pow2(64) == WORD
  {
    Pow2Of32();
    Pow2Add(32, 32);
  }

  lemma {:induction false} Pow2Add(a: nat, b: nat)
    ensures Pow2(a + b) == Pow2(a) * Pow2(b)
  {
    if b > 0 {
      Pow2Add(a, b - 1);
      Doubled(Pow2(a), Pow2(b - 1));
    }
  }

  lemma {:induction false} Pow2Monotone(a: nat, b: nat)
    requires a <= b
    ensures Pow2(a) <= Pow2(b)
    ensures a < b ==> 2 * Pow2(a) <= Pow2(b)
  {
    if a < b {
      Pow2Monotone(a, b - 1);
    }
  }

  // ---------------------------------------------------------------- shifts and low bits

  /** A shift splits a word into quotient and remainder. */
  lemma {:induction false} ShrLow(a: nat, k: nat)
    ensures a == Shr(a, k) * Pow2(k) + Low(a, k)
  {
    if k > 0 {
      ShrLow(a / 2, k - 1);
      Doubled(Shr(a, k), Pow2(k - 1));
    }
  }

  lemma {:induction false} DivMod(a: nat, k: nat)
    ensures Shr(a, k) == a / Pow2(k)
    ensures Low(a, k) == a % Pow2(k)
  {
    ShrLow(a, k);
    DivModUnique(a, Pow2(k), Shr(a, k), Low(a, k));
  }

  /** What a shift and a mask give back of a word put together from two fields. */
  lemma {:induction false} Fields(hi: nat, k: nat, lo: nat)
    requires lo < Pow2(k)
    ensures Shr(hi * Pow2(k) + lo, k) == hi
    ensures Low(hi * Pow2(k) + lo, k) == lo
  {
    DivMod(hi * Pow2(k) + lo, k);
    DivModUnique(hi * Pow2(k) + lo, Pow2(k), hi, lo);
  }

  lemma {:induction false} ShrShr(a: nat, j: nat, k: nat)
    ensures Shr(Shr(a, j), k) == Shr(a, j + k)
  {
    if j > 0 {
      ShrShr(a / 2, j - 1, k);
    }
  }

  lemma {:induction false} LowSplit(a: nat, j: nat, k: nat)
    ensures Low(a, j + k) == Low(Shr(a, j), k) * Pow2(j) + Low(a, j)
  {
    if j > 0 {
      LowSplit(a / 2, j - 1, k);
      var h, p := Low(Shr(a / 2, j - 1), k), Pow2(j - 1);
      Doubled(h, p);
      calc {
        Low(a, j + k);
        a % 2 + 2 * Low(a / 2, j - 1 + k);
        a % 2 + 2 * (h * p + Low(a / 2, j - 1));
        h * (2 * p) + Low(a, j);
      }
    }
  }

  /** The low bits of the low bits, and the bits between them. */
  lemma {:induction false} LowOfLow(a: nat, n: nat, k: nat)
    requires k <= n
    ensures Low(Low(a, n), k) == Low(a, k)
    ensures Shr(Low(a, n), k) == Low(Shr(a, k), n - k)
  {
    if k > 0 {
      assert Low(a, n) / 2 == Low(a / 2, n - 1);
      LowOfLow(a / 2, n - 1, k - 1);
    }
  }

  lemma {:induction false} LowSmall(a: nat, k: nat)
    requires a < Pow2(k)
    ensures Low(a, k) == a && Shr(a, k) == 0
  {
    if k > 0 {
      LowSmall(a / 2, k - 1);
    }
  }

  // ---------------------------------------------------------------- masks

  /** Setting bits below a multiple of 2^k adds them. */
  lemma {:induction false} OrDisjoint(a: nat, k: nat, b: nat)
    requires b < Pow2(k)
    ensures Or(a * Pow2(k), b) == a * Pow2(k) + b
  {
    if k == 0 {
      OrZero(a);
    } else {
      Doubled(a, Pow2(k - 1));
      OrDisjoint(a, k - 1, b / 2);
      OrHalve(a * Pow2(k - 1), b);
    }
  }

  lemma {:induction false} OrHalve(x: nat, b: nat)
    ensures Or(2 * x, b) == b % 2 + 2 * Or(x, b / 2)
  {
  }

  lemma {:induction false} OrZero(a: nat)
    ensures Or(a, 0) == a && Or(0, a) == a
  {
    if a > 0 {
      OrZero(a / 2);
    }
  }

  /** A mask of k ones keeps the low k bits. */
  lemma {:induction false} AndLowMask(a: nat, k: nat)
    ensures And(a, Pow2(k) - 1) == Low(a, k)
  {
    if k == 0 {
      AndZero(a);
    } else {
      AndLowMask(a / 2, k - 1);
      AndOdd(a, Pow2(k - 1) - 1);
    }
  }

  lemma {:induction false} AndOdd(a: nat, h: nat)
    ensures And(a, 2 * h + 1) == a % 2 + 2 * And(a / 2, h)
  {
  }

  lemma {:induction false} AndEven(a: nat, h: nat)
    ensures And(a, 2 * h) == 2 * And(a / 2, h)
  {
  }

  lemma {:induction false} AndZero(a: nat)
    ensures And(a, 0) == 0
  {
    if a > 0 {
      AndZero(a / 2);
    }
  }

  /** Clearing the low k of n bits rounds down to a multiple of 2^k. */
  lemma {:induction false} AndHighMask(a: nat, k: nat, n: nat)
    requires k <= n && a < Pow2(n)
    ensures Pow2(k) <= Pow2(n)
    ensures And(a, Pow2(n) - Pow2(k)) == a - Low(a, k)
    decreases n
  {
    Pow2Monotone(k, n);
    if k == 0 {
      AndLowMask(a, n);
      LowSmall(a, n);
    } else {
      HighMaskStep(a, k, n);
    }
  }

  lemma {:induction false} HighMaskStep(a: nat, k: nat, n: nat)
    requires 0 < k <= n && a < Pow2(n)
    ensures Pow2(k) <= Pow2(n)
    ensures And(a, Pow2(n) - Pow2(k)) == a - Low(a, k)
    decreases n, 0
  {
    var p, q, h := Pow2(k - 1), Pow2(n - 1), a / 2;
    AndHighMask(h, k - 1, n - 1);
    calc {
      And(a, Pow2(n) - Pow2(k));
      And(a, 2 * (q - p));
      { AndEven(a, q - p); }
      2 * And(h, q - p);
      2 * (h - Low(h, k - 1));
      a - Low(a, k);
    }
  }

  // The same facts with the power of two as a number p, for the fixed layouts of packed words.

  lemma {:induction false} ShlIs(a: nat, k: nat, p: nat)
    requires p == Pow2(k)
    ensures Shl(a, k) == a * p % WORD
    ensures a * p < WORD ==> Shl(a, k) == a * p
  {
  }

  lemma {:induction false} ShrIs(a: nat, k: nat, p: nat)
    requires p == Pow2(k)
    ensures Shr(a, k) == a / p
  {
    DivMod(a, k);
  }

  lemma {:induction false} MaskLow(a: nat, k: nat, p: nat)
    requires p == Pow2(k)
    ensures And(a, p - 1) == a % p
  {
    AndLowMask(a, k);
    DivMod(a, k);
  }

  lemma {:induction false} MaskHigh(a: nat, k: nat, p: nat)
    requires p == Pow2(k) && k <= 64 && a < WORD
    ensures p <= WORD && And(a, WORD - p) == a - a % p
  {
    Pow2Of64();
    AndHighMask(a, k, 64);
    DivMod(a, k);
  }

  lemma {:induction false} OrField(hi: nat, k: nat, lo: nat, p: nat)
    requires p == Pow2(k) && lo < p
    ensures Or(hi * p, lo) == hi * p + lo
    ensures Or(lo, hi * p) == hi * p + lo
  {
    OrDisjoint(hi, k, lo);
    OrCommutes(hi * p, lo);
  }

  // ---------------------------------------------------------------- laws of or

  lemma {:induction false} OrCommutes(a: nat, b: nat)
    ensures Or(a, b) == Or(b, a)
    decreases a + b
  {
    if a != 0 || b != 0 {
      OrCommutes(a / 2, b / 2);
    }
  }

  lemma {:induction false} OrAssociates(a: nat, b: nat, c: nat)
    ensures Or(Or(a, b), c) == Or(a, Or(b, c))
    decreases a + b + c
  {
    if a != 0 || b != 0 || c != 0 {
      OrAssociates(a / 2, b / 2, c / 2);
      OrBits(a, b);
      OrBits(b, c);
      OrBits(Or(a, b), c);
      OrBits(a, Or(b, c));
    }
  }

  lemma {:induction false} OrBits(a: nat, b: nat)
    ensures Or(a, b) / 2 == Or(a / 2, b / 2)
    ensures Or(a, b) % 2 == 1 <==> a % 2 == 1 || b % 2 == 1
  {
  }

  /** Or acts on the low bits and on the rest separately. */
  lemma {:induction false} OrSplit(a: nat, b: nat, k: nat)
    ensures Shr(Or(a, b), k) == Or(Shr(a, k), Shr(b, k)) && Low(Or(a, b), k) == Or(Low(a, k), Low(b, k))
    decreases k
  {
    OrBits(a, b);
    if k > 0 {
      OrSplit(a / 2, b / 2, k - 1);
      OrBits(Low(a, k), Low(b, k));
    }
  }

  lemma {:induction false} FieldsOf(a: nat, k: nat, p: nat)
    requires p == Pow2(k)
    ensures a / p == Shr(a, k) && a % p == Low(a, k)
  {
    DivMod(a, k);
  }

  lemma {:induction false} OrScaled(a: nat, b: nat, k: nat)
    ensures Or(a * Pow2(k), b * Pow2(k)) == Or(a, b) * Pow2(k)
  {
    if k > 0 {
      OrScaled(a, b, k - 1);
      OrScaledStep(a, b, Pow2(k - 1));
    }
  }

  lemma {:induction false} OrScaledStep(a: nat, b: nat, p: nat)
    requires Or(a * p, b * p) == Or(a, b) * p
    ensures Or(a * (2 * p), b * (2 * p)) == Or(a, b) * (2 * p)
  {
    var x, y := a * p, b * p;
    Doubled(a, p);
    Doubled(b, p);
    OrEven(x, y);
    Doubled(Or(a, b), p);
  }

  lemma {:induction false} OrEven(x: nat, y: nat)
    ensures Or(2 * x, 2 * y) == 2 * Or(x, y)
  {
  }

  // ---------------------------------------------------------------- alignment

  /** Rounding up gives the one multiple of the alignment in [value, value + align). */
  lemma {:induction false} AlignUpIsLeast(value: nat, k: nat)
    requires k <= 64 && value + Pow2(k) - 1 < WORD
    ensures var r := AlignUp(value, Pow2(k));
            && value <= r < value + Pow2(k)
            && r % Pow2(k) == 0
            && (value % Pow2(k) == 0 ==> r == value)
  {
    AlignUpIs(value, k);
    LeastMultiple(value, Pow2(k), Shr(value + Pow2(k) - 1, k), Low(value + Pow2(k) - 1, k));
  }

  lemma {:induction false} AlignUpIs(value: nat, k: nat)
    requires k <= 64 && value + Pow2(k) - 1 < WORD
    ensures var v := value + Pow2(k) - 1;
            AlignUp(value, Pow2(k)) == Shr(v, k) * Pow2(k) && v == Shr(v, k) * Pow2(k) + Low(v, k)
  {
    var v := value + Pow2(k) - 1;
    Pow2Of64();
    AndHighMask(v, k, 64);
    ShrLow(v, k);
  }

  lemma {:induction false} LeastMultiple(value: nat, p: nat, q: nat, r: nat)
    requires p > 0 && r < p && value + p - 1 == q * p + r
    ensures value <= q * p < value + p && (q * p) % p == 0
    ensures value % p == 0 ==> q * p == value
  {
    DivModUnique(q * p, p, q, 0);
    if value % p == 0 {
      DivModUnique(value + p - 1, p, value / p, p - 1);
      DivModUnique(value + p - 1, p, q, r);
    }
  }
}
