/** Size classes and the byte layout of small blocks and large mappings. */
module BlockLayout {
  import opened Bits
  import opened Common

  const PAGE_SIZE: nat := 4096
  const MAX_CACHE_SIZE: nat := 65536
  const NUM_CLASSES: nat := 13
  const CACHE_HEADER_SIZE: nat := 16
  const PAGE_HEADER_SIZE: nat := 16
  const LARGE_HEADER_SIZE: nat := 16
  const MAGAZINE_CAPACITY: nat := 64

  // ------------------------------------------------------------------
  // Size classes
  // ------------------------------------------------------------------

  /** `round_up_pow2(size).max(16)`. */
  function CacheSize(size: nat): nat {
    var r := RoundUpPow2(size);
    if r < 16 then 16 else r
  }

  /** `size_to_class`. */
  function SizeToClass(size: nat): Option<nat> {
    var rounded := CacheSize(size);
    if rounded == 16 then Some(0)
    else if rounded == 32 then Some(1)
    else if rounded == 64 then Some(2)
    else if rounded == 128 then Some(3)
    else if rounded == 256 then Some(4)
    else if rounded == 512 then Some(5)
    else if rounded == 1024 then Some(6)
    else if rounded == 2048 then Some(7)
    else if rounded == 4096 then Some(8)
    else if rounded == 8192 then Some(9)
    else if rounded == 16384 then Some(10)
    else if rounded == 32768 then Some(11)
    else if rounded == 65536 then Some(12)
    else None
  }

  /** The class of a cacheable size. */
  function ClassFor(size: nat): nat {
    match SizeToClass(size)
    case Some(c) => c
    case None => 0
  }

  /** The user bytes of a block of class `c`. */
  function ClassSize(c: nat): nat {
    Pow2(c + 4)
  }

  /** Header and user bytes together. */
  function BlockSize(c: nat): nat {
    ClassSize(c) + CACHE_HEADER_SIZE
  }

  function BlocksPerPage(c: nat): nat {
    FloorDiv(PAGE_SIZE, BlockSize(c))
  }

  /** Pages mapped for a single block. */
  function PagesForBlock(c: nat): nat {
    var n := DivCeil(BlockSize(c), PAGE_SIZE);
    if n < 1 then 1 else n
  }

  /** Blocks of a freshly carved page that fit in the empty magazine. */
  function Refill(c: nat): nat {
    if BlocksPerPage(c) == 0 then 0
    else if BlocksPerPage(c) - 1 < MAGAZINE_CAPACITY then BlocksPerPage(c) - 1
    else MAGAZINE_CAPACITY
  }

  /** Blocks of a freshly carved page that `bulk_init` has no room for. */
  function Overflow(c: nat): nat {
    if BlocksPerPage(c) == 0 then 0 else BlocksPerPage(c) - 1 - Refill(c)
  }

  lemma SmallPowers(k: nat)
    requires k <= 16
    ensures Pow2(k) <= 65536
    ensures k < 4 ==> Pow2(k) < 16
    ensures k >= 4 ==> Pow2(k) == [16, 32, 64, 128, 256, 512, 1024, 2048, 4096, 8192, 16384, 32768, 65536][k - 4]
  {
    Pow2Values();
    Pow2Monotone(k, 16);
    if k < 4 { Pow2Monotone(k, 3); }
  }

  lemma ClassSizeValue(c: nat)
    requires c < NUM_CLASSES
    ensures ClassSize(c) == [16, 32, 64, 128, 256, 512, 1024, 2048, 4096, 8192, 16384, 32768, 65536][c]
  {
    SmallPowers(c + 4);
  }

  /** The least power of two at or above `size`, in exponent form. */
  lemma RoundUpExponent(size: nat) returns (k: nat)
    requires size <= Pow2(63)
    ensures RoundUpPow2(size) == Pow2(k) && size <= Pow2(k)
    ensures forall j: nat :: size <= Pow2(j) ==> k <= j
  {
    Pow2Monotone(63, 64);
    RoundUpPow2Exact(size);
    k := PowerOfTwoExponent(RoundUpPow2(size));
    forall j: nat | size <= Pow2(j)
      ensures k <= j
    {
      PowersOfTwo(j);
      if j < k { Pow2Monotone(j, k); }
    }
  }

  /** A request of at most 64 KiB gets the smallest class that holds it, always
      below 13; larger requests, up to half the address space, get none. */
  lemma SizeToClassIsLeastFit(size: nat)
    requires size <= Pow2(63)
    ensures SizeToClass(size).Some? <==> size <= MAX_CACHE_SIZE
    ensures SizeToClass(size).Some? ==>
              var c := SizeToClass(size).value;
              && c < NUM_CLASSES
              && CacheSize(size) == ClassSize(c)
              && size <= ClassSize(c)
              && (forall d: nat :: size <= ClassSize(d) ==> c <= d)
  {
    hide Pow2, IsPowerOfTwo, BitLength;
    hide RoundUpPow2;
    var k := RoundUpExponent(size);
    Pow2Values();
    if k > 16 {
      Pow2Monotone(17, k);
      assert !(size <= Pow2(16));
    } else {
      SmallPowers(k);
      if k < 4 {
        assert CacheSize(size) == 16;
      } else {
        assert SizeToClass(size) == Some(k - 4);
      }
    }
  }

  lemma ClassSizeRoundsToItself(c: nat)
    ensures RoundUpPow2(ClassSize(c)) == ClassSize(c)
  {
    PowersOfTwo(c + 4);
  }

  lemma FitsBelow63(size: nat)
    requires size <= MAX_CACHE_SIZE
    ensures size <= Pow2(63)
  {
    Pow2Word();
  }

  /** Above 2^63 the shift in `round_up_pow2` wraps to 1, so `size_to_class`
      answers class 0; its callers never ask, because they test the size first. */
  lemma SizeToClassWraps(size: nat)
    requires Pow2(63) < size < Pow2(64)
    ensures SizeToClass(size) == Some(0)
  {
    hide Pow2, RoundUpPow2;
    RoundUpPow2Wraps(size);
  }

  /** The class computed again from the rounded size, or from the size stored in
      the header at free time, is the class computed at allocation time. */
  lemma ClassIsStable(size: nat)
    requires size <= MAX_CACHE_SIZE
    ensures SizeToClass(CacheSize(size)) == SizeToClass(size)
  {
    hide Pow2, IsPowerOfTwo, BitLength;
    hide RoundUpPow2;
    FitsBelow63(size);
    SizeToClassIsLeastFit(size);
    var c := SizeToClass(size).value;
    ClassSizeRoundsToItself(c);
    ClassSizeValue(c);
  }

  /** Everything the carving arithmetic needs about one class. */
  lemma ClassGeometry(c: nat)
    requires c < NUM_CLASSES
    ensures BlockSize(c) % 16 == 0 && BlockSize(c) >= 32
    ensures BlocksPerPage(c) * BlockSize(c) <= PAGE_SIZE
    ensures BlockSize(c) <= PagesForBlock(c) * PAGE_SIZE
    ensures BlocksPerPage(c) > 1 <==> c <= 6
    ensures BlocksPerPage(c) > 1 ==> PagesForBlock(c) == 1
    ensures PagesForBlock(c) >= 1
    ensures Overflow(c) == if c == 0 then 63 else if c == 1 then 20 else 0
    ensures Refill(c) <= MAGAZINE_CAPACITY
    ensures BlocksPerPage(c) > 0 ==> 1 + Refill(c) + Overflow(c) == BlocksPerPage(c)
  {
    ClassSizeValue(c);
    DivMod(PAGE_SIZE, BlockSize(c));
  }

  /** No further block fits in a page, and no page of a run or a large mapping can be
      spared. */
  lemma NothingToSpare(c: nat, size: nat, align: nat)
    requires c < NUM_CLASSES
    ensures (BlocksPerPage(c) + 1) * BlockSize(c) > PAGE_SIZE
    ensures (PagesForBlock(c) - 1) * PAGE_SIZE < BlockSize(c)
    ensures (LargePages(size, align) - 1) * PAGE_SIZE < PAGE_HEADER_SIZE + LARGE_HEADER_SIZE + size + align
  {
    ClassSizeValue(c);
    DivMod(PAGE_SIZE, BlockSize(c));
    Distribute(BlocksPerPage(c) + 1, 1, BlockSize(c));
  }

  // ------------------------------------------------------------------
  // Large mappings
  // ------------------------------------------------------------------

  /** `Layout::from_size_align` accepts: the size rounded up to the alignment
      does not exceed `isize::MAX`. */
  predicate ValidLayout(size: nat, align: nat) {
    && IsPowerOfTwo(align)
    && align <= Pow2(63)
    && size <= Pow2(63) - align
  }

  function LargePages(size: nat, align: nat): nat {
    var n := DivCeil(PAGE_HEADER_SIZE + LARGE_HEADER_SIZE + size + align, PAGE_SIZE);
    if n < 1 then 1 else n
  }

  function LargeUserAddr(base: nat, align: nat): nat
    requires 1 <= align < WORD
  {
    AlignUp(base + PAGE_HEADER_SIZE + LARGE_HEADER_SIZE, align)
  }

  /** The user range of a large allocation is aligned to its alignment and to
      16, follows both headers, and ends inside the mapping. */
  lemma LargeFits(base: nat, size: nat, align: nat)
    requires ValidLayout(size, align)
    requires base % PAGE_SIZE == 0
    requires base + LargePages(size, align) * PAGE_SIZE <= WORD
    ensures align < WORD
    ensures var p := LargeUserAddr(base, align);
            && p % align == 0 && p % 16 == 0
            && base + PAGE_HEADER_SIZE <= p - LARGE_HEADER_SIZE
            && p + size <= base + LargePages(size, align) * PAGE_SIZE
  {
    hide Pow2, IsPowerOfTwo, AlignUp, LargePages;
    WordExceedsAlign(align);
    LargePagesSuffice(size, align);
    var from := base + PAGE_HEADER_SIZE + LARGE_HEADER_SIZE;
    assert from % 16 == 0;
    AlignedStart(from, align);
  }

  lemma AlignedStart(from: nat, align: nat)
    requires IsPowerOfTwo(align) && align < WORD && from + align - 1 < WORD
    requires from % 16 == 0
    ensures var p := AlignUp(from, align);
            p % align == 0 && p % 16 == 0 && from <= p < from + align
  {
    hide Pow2, IsPowerOfTwo, And;
    AlignUpRounds(from, align);
    SixteenAligned(from, AlignUp(from, align), align);
  }

  lemma WordExceedsAlign(align: nat)
    requires IsPowerOfTwo(align) && align <= Pow2(63)
    ensures 1 <= align < WORD
  {
    Pow2Word();
  }

  lemma LargePagesSuffice(size: nat, align: nat)
    ensures LargePages(size, align) * PAGE_SIZE >= PAGE_HEADER_SIZE + LARGE_HEADER_SIZE + size + align
  {
  }

  lemma SixteenAligned(from: nat, p: nat, align: nat)
    requires IsPowerOfTwo(align)
    requires from % 16 == 0 && p % align == 0 && from <= p
    requires forall m: nat :: from <= m && m % align == 0 ==> p <= m
    ensures p % 16 == 0
  {
    var k := PowerOfTwoExponent(align);
    Pow2Values();
    if k <= 4 {
      Pow2Add(k, 4 - k);
      MultipleOfFactor(from, align, Pow2(4 - k));
      assert p == from;
    } else {
      Pow2Add(4, k - 4);
      MultipleOfFactor(p, 16, Pow2(k - 4));
    }
  }

  /** A multiple of a product is a multiple of its first factor. */
  lemma MultipleOfFactor(a: nat, n: nat, m: nat)
    requires n > 0 && m > 0 && n * m > 0 && a % (n * m) == 0
    ensures a % n == 0
  {
    DivMod(a, n * m);
    var q := a / (n * m);
    assert a == q * (n * m);
    assert q * (n * m) == (q * m) * n;
    ModIs(a, n, q * m, 0);
  }
}
