/** Machine-word arithmetic used by every other module.

    `usize` is a 64-bit unsigned integer.  Words are modelled as naturals below
    `WORD`, and the bitwise operators are defined bit by bit, so that the mask
    idioms of the allocator (`x & (n - 1)`, `(x + a - 1) & !(a - 1)`,
    `x ^ (1 << k)`) are statements to be proved rather than definitions.
 */
module Bits {

  const WORD: nat := 0x1_0000_0000_0000_0000

  function Pow2(k: nat): (p: nat)
    ensures p >= 1
  {
    if k == 0 then 1 else 2 * Pow2(k - 1)
  }

  /** `usize::is_power_of_two`. */
  predicate IsPowerOfTwo(n: nat) {
    n == 1 || (n > 1 && n % 2 == 0 && IsPowerOfTwo(n / 2))
  }

  /** Bitwise and, bit by bit. */
  function And(a: nat, b: nat): nat {
    if a == 0 || b == 0 then 0
    else 2 * And(a / 2, b / 2) + (if a % 2 == 1 && b % 2 == 1 then 1 else 0)
  }

  /** Bitwise exclusive or, bit by bit. */
  function Xor(a: nat, b: nat): nat {
    if a == 0 && b == 0 then 0
    else 2 * Xor(a / 2, b / 2) + (if a % 2 == b % 2 then 0 else 1)
  }

  /** Bitwise complement of a 64-bit word. */
  function Not(a: nat): nat
    requires a < WORD
  {
    WORD - 1 - a
  }

  /** Number of bits needed to write `n`, i.e. `usize::BITS - n.leading_zeros()`. */
  function BitLength(n: nat): nat {
    if n == 0 then 0 else 1 + BitLength(n / 2)
  }

  /** `usize::trailing_zeros`. */
  function TrailingZeros(n: nat): nat {
    if n == 0 then 64 else if n % 2 == 1 then 0 else 1 + TrailingZeros(n / 2)
  }

  function FloorDiv(n: nat, m: nat): nat
    requires m > 0
  {
    n / m
  }

  /** `n.div_ceil(m)`. */
  function DivCeil(n: nat, m: nat): (q: nat)
    requires m > 0
    ensures q * m >= n
    ensures n > 0 ==> (q - 1) * m < n
    ensures n == 0 ==> q == 0
  {
    if n % m == 0 then n / m else n / m + 1
  }

  // ------------------------------------------------------------------
  // Powers of two
  // ------------------------------------------------------------------

  lemma {:induction false} PowersOfTwo(k: nat)
    ensures IsPowerOfTwo(Pow2(k))
    ensures TrailingZeros(Pow2(k)) == k
    ensures BitLength(Pow2(k)) == k + 1
  {
    if k > 0 {
      PowersOfTwo(k - 1);
      assert Pow2(k) / 2 == Pow2(k - 1);
    }
  }

  lemma {:induction false} PowerOfTwoExponent(n: nat) returns (k: nat)
    requires IsPowerOfTwo(n)
    ensures n == Pow2(k)
  {
    if n == 1 {
      k := 0;
    } else {
      var j := PowerOfTwoExponent(n / 2);
      k := j + 1;
    }
  }

  lemma {:induction false} Pow2Monotone(j: nat, k: nat)
    requires j <= k
    ensures Pow2(j) <= Pow2(k)
    ensures j < k ==> 2 * Pow2(j) <= Pow2(k)
    decreases k - j
  {
    if j < k {
      Pow2Monotone(j, k - 1);
    }
  }

  lemma {:induction false} Pow2Add(j: nat, k: nat)
    ensures Pow2(j + k) == Pow2(j) * Pow2(k)
  {
    if j > 0 {
      Pow2Add(j - 1, k);
      assert Pow2(j) * Pow2(k) == 2 * (Pow2(j - 1) * Pow2(k));
    }
  }

  lemma Pow2Values()
    ensures Pow2(0) == 1 && Pow2(4) == 16 && Pow2(5) == 32 && Pow2(6) == 64 && Pow2(7) == 128
    ensures Pow2(8) == 256 && Pow2(9) == 512 && Pow2(10) == 1024 && Pow2(11) == 2048
    ensures Pow2(12) == 4096 && Pow2(13) == 8192 && Pow2(14) == 16384 && Pow2(15) == 32768
    ensures Pow2(16) == 65536 && Pow2(17) == 131072 && Pow2(18) == 262144
  {
    assert Pow2(4) == 16;
    assert Pow2(8) == 256;
    assert Pow2(12) == 4096;
    assert Pow2(16) == 65536;
  }

  lemma Pow2Word()
    ensures Pow2(63) == 0x8000_0000_0000_0000
    ensures Pow2(64) == WORD
  {
    Pow2Values();
    Pow2Add(16, 16);
    Pow2Add(32, 16);
    Pow2Add(48, 15);
  }

  lemma {:induction false} BitLengthBounds(n: nat)
    ensures n < Pow2(BitLength(n))
    ensures n > 0 ==> BitLength(n) > 0 && Pow2(BitLength(n) - 1) <= n
  {
    if n > 0 {
      BitLengthBounds(n / 2);
    }
  }

  // ------------------------------------------------------------------
  // Masks
  // ------------------------------------------------------------------

  /** Halving the quotient and the modulus together. */
  lemma HalveMod(a: nat, m: nat)
    requires m >= 1
    ensures a % (2 * m) == 2 * ((a / 2) % m) + a % 2
  {
    var q := (a / 2) / m;
    var r := (a / 2) % m;
    assert a / 2 == q * m + r;
    var s := 2 * r + a % 2;
    assert a == q * (2 * m) + s by {
      assert a == 2 * (a / 2) + a % 2;
    }
    ModIs(a, 2 * m, q, s);
  }

  /** Euclidean division is unique. */
  lemma ModIs(a: int, m: int, q: int, r: int)
    requires m > 0 && 0 <= r < m
    requires a == q * m + r
    ensures a % m == r && a / m == q
  {
    var q' := a / m;
    DivMod(a, m);
    if q > q' {
      MulAtLeast(q - q', m);
      Distribute(q, q', m);
    } else if q < q' {
      MulAtLeast(q' - q, m);
      Distribute(q', q, m);
    }
  }

  lemma DivMod(a: int, m: int)
    requires m > 0
    ensures a == (a / m) * m + a % m
  {
  }

  lemma MulAtLeast(d: int, m: int)
    requires d >= 1 && m >= 0
    ensures d * m >= m
  {
    assert (d - 1) * m >= 0;
  }

  lemma Distribute(a: int, b: int, m: int)
    ensures (a - b) * m == a * m - b * m
  {
  }

  /** `a & (2^k - 1)` is the remainder modulo 2^k. */
  lemma {:induction false} MaskIsMod(a: nat, k: nat)
    ensures And(a, Pow2(k) - 1) == a % Pow2(k)
  {
    if k == 0 {
    } else {
      MaskIsMod(a / 2, k - 1);
      HalveMod(a, Pow2(k - 1));
      assert (Pow2(k) - 1) / 2 == Pow2(k - 1) - 1;
      assert (Pow2(k) - 1) % 2 == 1;
      if a == 0 {
        assert And(a, Pow2(k) - 1) == 0;
      }
    }
  }

  /** `a & (2^n - 2^k)` clears the low k bits of an n-bit word. */
  lemma {:induction false} HighMaskIsFloor(a: nat, k: nat, n: nat)
    requires k <= n && a < Pow2(n)
    requires Pow2(k) <= Pow2(n)
    ensures And(a, Pow2(n) - Pow2(k)) == a - a % Pow2(k)
    decreases n
  {
    if k == 0 {
      MaskIsMod(a, n);
      ModIs(a, Pow2(n), 0, a);
    } else {
      Pow2Monotone(k - 1, n - 1);
      HighMaskIsFloor(a / 2, k - 1, n - 1);
      HalveMod(a, Pow2(k - 1));
      assert (Pow2(n) - Pow2(k)) / 2 == Pow2(n - 1) - Pow2(k - 1);
      assert (Pow2(n) - Pow2(k)) % 2 == 0;
      if a == 0 || Pow2(n) == Pow2(k) {
        assert And(a, Pow2(n) - Pow2(k)) == 0;
      }
    }
  }

  lemma {:induction false} XorZero(a: nat)
    ensures Xor(a, 0) == a
  {
    if a > 0 {
      XorZero(a / 2);
    }
  }

  /** `a ^ (1 << k)` flips bit k and nothing else. */
  lemma {:induction false} XorFlipsBit(a: nat, k: nat)
    ensures Xor(a, Pow2(k)) == if (a / Pow2(k)) % 2 == 0 then a + Pow2(k) else a - Pow2(k)
    ensures (a / Pow2(k)) % 2 == 1 ==> a >= Pow2(k)
  {
    if k == 0 {
      XorZero(a / 2);
    } else {
      XorFlipsBit(a / 2, k - 1);
      DivHalf(a, Pow2(k - 1));
      assert Pow2(k) / 2 == Pow2(k - 1) && Pow2(k) % 2 == 0;
    }
  }

  lemma DivHalf(a: nat, m: nat)
    requires m >= 1
    ensures a / (2 * m) == (a / 2) / m
  {
    HalveMod(a, m);
    var q := (a / 2) / m;
    var r := (a / 2) % m;
    assert a == 2 * (q * m + r) + a % 2;
    assert a == q * (2 * m) + (2 * r + a % 2);
    ModIs(a, 2 * m, q, 2 * r + a % 2);
  }

  // ------------------------------------------------------------------
  // round_up_pow2 and align_up
  // ------------------------------------------------------------------

  /** `1usize << n` in a release build, where the shift amount is taken modulo 64. */
  function ShiftOne(n: nat): nat {
    Pow2(n % 64)
  }

  /** `round_up_pow2`. */
  function RoundUpPow2(size: nat): nat {
    if size == 0 then 1
    else if IsPowerOfTwo(size) then size
    else ShiftOne(BitLength(size))
  }

  ghost predicate IsLeastPowerOfTwoAtLeast(p: nat, size: nat) {
    && IsPowerOfTwo(p)
    && size <= p
    && forall q: nat :: IsPowerOfTwo(q) && size <= q ==> p <= q
  }

  /** A word that is not a power of two lies strictly between two of them. */
  lemma BetweenPowers(size: nat)
    requires size > 0 && !IsPowerOfTwo(size)
    ensures BitLength(size) > 0
    ensures Pow2(BitLength(size) - 1) < size < Pow2(BitLength(size))
  {
    BitLengthBounds(size);
    PowersOfTwo(BitLength(size) - 1);
  }

  lemma NextPowerIsLeast(size: nat)
    requires size > 0 && !IsPowerOfTwo(size)
    ensures IsLeastPowerOfTwoAtLeast(Pow2(BitLength(size)), size)
  {
    var n := BitLength(size);
    BetweenPowers(size);
    PowersOfTwo(n);
    forall q: nat | IsPowerOfTwo(q) && size <= q
      ensures Pow2(n) <= q
    {
      var k := PowerOfTwoExponent(q);
      if k < n {
        Pow2Monotone(k, n - 1);
      } else {
        Pow2Monotone(n, k);
      }
    }
  }

  lemma WordExponentBound(k: nat)
    requires Pow2(k) < Pow2(64)
    ensures k < 64 && Pow2(k) <= Pow2(63)
  {
    if k >= 64 { Pow2Monotone(64, k); }
    Pow2Monotone(k, 63);
  }

  lemma WordBitLength(size: nat)
    requires 0 < size < Pow2(64) && !IsPowerOfTwo(size)
    ensures 0 < BitLength(size) <= 64
    ensures BitLength(size) == 64 <==> size > Pow2(63)
  {
    hide Pow2, IsPowerOfTwo, BitLength;
    var n := BitLength(size);
    BetweenPowers(size);
    WordExponentBound(n - 1);
    if n < 64 {
      Pow2Monotone(n, 63);
    }
  }

  lemma OneIsLeast()
    ensures IsLeastPowerOfTwoAtLeast(1, 0)
  {
  }

  /** Up to 2^63, `round_up_pow2` is the least power of two at or above. */
  lemma RoundUpPow2Fits(size: nat)
    requires size < Pow2(64) && size <= Pow2(63)
    ensures IsLeastPowerOfTwoAtLeast(RoundUpPow2(size), size)
  {
    hide Pow2, IsPowerOfTwo, BitLength;
    if size == 0 {
      OneIsLeast();
    } else if !IsPowerOfTwo(size) {
      WordBitLength(size);
      NextPowerIsLeast(size);
    }
  }

  /** Above 2^63, the shift amount is 64 and wraps. */
  lemma RoundUpPow2Wraps(size: nat)
    requires Pow2(63) < size < Pow2(64)
    ensures RoundUpPow2(size) == 1
  {
    assert Pow2(0) == 1;
    hide Pow2, IsPowerOfTwo, BitLength;
    if IsPowerOfTwo(size) {
      var k := PowerOfTwoExponent(size);
      WordExponentBound(k);
    } else {
      WordBitLength(size);
    }
  }

  /** `round_up_pow2` returns the least power of two at or above its argument
      exactly when such a power fits in a word; above 2^63 the shift wraps. */
  lemma RoundUpPow2Exact(size: nat)
    requires size < Pow2(64)
    ensures IsLeastPowerOfTwoAtLeast(RoundUpPow2(size), size) <==> size <= Pow2(63)
  {
    hide Pow2, RoundUpPow2;
    if size <= Pow2(63) {
      RoundUpPow2Fits(size);
    } else {
      RoundUpPow2Wraps(size);
    }
  }

  /** `(addr + align - 1) & !(align - 1)` for a sum that does not overflow. */
  function AlignUp(addr: nat, align: nat): nat
    requires 1 <= align < WORD
  {
    And(addr + align - 1, Not(align - 1))
  }

  lemma AlignUpIsFloor(addr: nat, align: nat)
    requires IsPowerOfTwo(align) && align < WORD && align >= 1
    requires addr + align - 1 < WORD
    ensures AlignUp(addr, align) == (addr + align - 1) - (addr + align - 1) % align
  {
    hide Pow2, IsPowerOfTwo, And;
    var k := PowerOfTwoExponent(align);
    var a := addr + align - 1;
    assert AlignUp(addr, align) == And(a, Pow2(64) - Pow2(k)) by { Pow2Word(); }
    WordFloor(a, k);
  }

  lemma WordFloor(a: nat, k: nat)
    requires a < WORD && Pow2(k) < WORD
    ensures Pow2(k) <= Pow2(64) && And(a, Pow2(64) - Pow2(k)) == a - a % Pow2(k)
  {
    hide Pow2, And;
    Pow2Word();
    WordExponentBound(k);
    Pow2Monotone(k, 64);
    HighMaskIsFloor(a, k, 64);
  }

  /** The mask form of `align_up` is rounding up to a multiple of `align`. */
  lemma AlignUpRounds(addr: nat, align: nat)
    requires IsPowerOfTwo(align) && align < WORD
    requires addr + align - 1 < WORD
    ensures var r := AlignUp(addr, align);
            && r % align == 0
            && addr <= r < addr + align
            && forall m: nat :: addr <= m && m % align == 0 ==> r <= m
  {
    assert align >= 1;
    hide Pow2, IsPowerOfTwo, And;
    AlignUpIsFloor(addr, align);
    var a := addr + align - 1;
    var r := AlignUp(addr, align);
    DivMod(a, align);
    ModIs(r, align, a / align, 0);
    forall m: nat | addr <= m && m % align == 0
      ensures r <= m
    {
      MultipleGap(r, m, align);
    }
  }

  /** Two multiples of `m` that are less than `m` apart are equal. */
  lemma MultipleGap(a: int, b: int, m: int)
    requires m > 0 && a % m == 0 && b % m == 0
    ensures a < b ==> a + m <= b
    ensures b < a ==> b + m <= a
  {
    var p, q := a / m, b / m;
    DivMod(a, m);
    DivMod(b, m);
    if p < q {
      MulAtLeast(q - p, m);
      Distribute(q, p, m);
    } else if q < p {
      MulAtLeast(p - q, m);
      Distribute(p, q, m);
    }
  }
}
