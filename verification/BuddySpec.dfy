/** The buddy allocator's state as sets of blocks and lists of addresses, and
    the splitting and merging steps on it. */
module BuddySpec {
  import opened Bits

  const MIN_ORDER: nat := 14
  const MAX_ORDER: nat := 18
  const NUM_ORDERS: nat := 5
  const TOP: nat := 4
  const HEADER_SIZE: nat := 16
  const REGION: nat := 262144

  /** Bytes of a block in list `k`, i.e. of order MIN_ORDER + k. */
  function Size(k: nat): (s: nat)
    ensures s >= 1
  {
    Pow2(MIN_ORDER + k)
  }

  lemma SizeDoubles(k: nat)
    ensures Size(k + 1) == 2 * Size(k)
  {
  }

  lemma RegionSize()
    ensures Size(TOP) == REGION
  {
    Pow2Values();
  }

  // ------------------------------------------------------------------
  // Multiples
  // ------------------------------------------------------------------

  /** The largest multiple of the size of class `k` at or below `x`. */
  function Down(x: nat, k: nat): (f: nat)
    ensures f <= x
  {
    ModLe(x, Size(k));
    x - x % Size(k)
  }

  lemma ModLe(x: nat, m: nat)
    requires m >= 1
    ensures 0 <= x % m <= x
  {
    if x < m {
      ModIs(x, m, 0, x);
    }
  }

  lemma DownFacts(x: nat, k: nat)
    ensures Down(x, k) <= x < Down(x, k) + Size(k)
    ensures Down(x, k) % Size(k) == 0
  {
    hide Size;
    DivMod(x, Size(k));
    ModIs(Down(x, k), Size(k), x / Size(k), 0);
  }

  lemma DownIs(x: nat, k: nat, a: nat)
    requires a % Size(k) == 0 && a <= x < a + Size(k)
    ensures Down(x, k) == a
  {
    hide Size;
    DivMod(a, Size(k));
    ModIs(x, Size(k), a / Size(k), x - a);
  }

  lemma MultipleOfHalf(f: nat, s: nat)
    requires s >= 1 && f % (2 * s) == 0
    ensures f % s == 0
  {
    DivMod(f, 2 * s);
    ModIs(f, s, 2 * (f / (2 * s)), 0);
  }

  lemma ShiftMultiple(f: nat, s: nat)
    requires s >= 1 && f % s == 0
    ensures (f + s) % s == 0
  {
    DivMod(f, s);
    Distribute(f / s + 1, 1, s);
    ModIs(f + s, s, f / s + 1, 0);
  }

  /** One level up, the multiple stays or drops by half. */
  lemma DownUp(x: nat, k: nat)
    ensures Down(x, k + 1) == Down(x, k) || Down(x, k + 1) + Size(k) == Down(x, k)
    ensures Down(x, k + 1) % Size(k) == 0
  {
    hide Size, Down;
    SizeDoubles(k);
    DownFacts(x, k + 1);
    var f := Down(x, k + 1);
    MultipleOfHalf(f, Size(k));
    if x < f + Size(k) {
      DownIs(x, k, f);
    } else {
      ShiftMultiple(f, Size(k));
      DownIs(x, k, f + Size(k));
    }
  }

  /** A multiple of a size is a multiple of every smaller size. */
  lemma {:induction false} SmallerMultiple(f: nat, j: nat, k: nat)
    requires j <= k && f % Size(k) == 0
    ensures f % Size(j) == 0
    decreases k - j
  {
    hide Size;
    if j < k {
      SizeDoubles(k - 1);
      MultipleOfHalf(f, Size(k - 1));
      SmallerMultiple(f, j, k - 1);
    }
  }

  lemma SizesGrow(j: nat, k: nat)
    requires j <= k
    ensures Size(j) <= Size(k) && Size(k) % Size(j) == 0
  {
    Pow2Monotone(MIN_ORDER + j, MIN_ORDER + k);
    hide Size;
    ModIs(Size(k), Size(k), 1, 0);
    SmallerMultiple(Size(k), j, k);
  }

  // ------------------------------------------------------------------
  // Addresses
  // ------------------------------------------------------------------

  /** The bits of an address below the smallest block size.  All blocks of a
      region share those of its base. */
  function Low(x: nat): nat {
    x % Size(0)
  }

  /** The start of the block of size class `k` that would contain the block of
      the smallest class at `x`. */
  function Floor(x: nat, k: nat): nat {
    Down(x, k) + Low(x)
  }

  /** A start of blocks of size class `k`: above the low bits, a multiple. */
  predicate Aligned(a: nat, k: nat) {
    Floor(a, k) == a
  }

  /** The start of the region of 2^18 bytes of `x`. */
  function Chunk(x: nat): nat {
    Floor(x, TOP)
  }

  lemma LowOf(f: nat, l: nat, k: nat)
    requires f % Size(k) == 0 && l < Size(0)
    ensures Low(f + l) == l && Down(f + l, k) == f
  {
    hide Size;
    SizesGrow(0, k);
    SmallerMultiple(f, 0, k);
    DivMod(f, Size(0));
    ModIs(f + l, Size(0), f / Size(0), l);
    DownIs(f + l, k, f);
  }

  lemma LowBound(x: nat)
    ensures Low(x) < Size(0)
  {
  }

  lemma FloorFacts(x: nat, k: nat)
    ensures Floor(x, k) <= x < Floor(x, k) + Size(k)
    ensures Aligned(Floor(x, k), k) && Low(Floor(x, k)) == Low(x)
  {
    hide Size, Down, Low;
    LowBound(x);
    DownFacts(x, k);
    LowOf(Down(x, k), Low(x), k);
    DownBelow(x, 0, k);
    LowSplits(x);
  }

  lemma LowSplits(x: nat)
    ensures Down(x, 0) + Low(x) == x
  {
    hide Size;
  }

  /** Larger sizes have lower multiples, and see the same one from a lower one. */
  lemma DownBelow(x: nat, j: nat, k: nat)
    requires j <= k
    ensures Down(x, k) <= Down(x, j)
  {
    hide Size, Down;
    DownFacts(x, k);
    DownFacts(x, j);
    SmallerMultiple(Down(x, k), j, k);
    MultipleGap(Down(x, j), Down(x, k), Size(j));
  }

  /** An aligned start is the floor of every start in its range. */
  lemma FloorIs(x: nat, k: nat, a: nat)
    requires Aligned(a, k) && a <= x < a + Size(k) && Low(x) == Low(a)
    ensures Floor(x, k) == a
  {
    hide Size, Down, Low;
    var f := Down(a, k);
    DownFacts(a, k);
    DownFacts(x, 0);
    LowSplits(x);
    LowBound(x);
    SmallerMultiple(f, 0, k);
    SizesGrow(0, k);
    SumMultiple(f, Size(k), Size(0));
    MultipleGap(Down(x, 0), f + Size(k), Size(0));
    DownIs(x, k, f);
  }

  lemma SumMultiple(a: nat, b: nat, m: nat)
    requires m > 0 && a % m == 0 && b % m == 0
    ensures (a + b) % m == 0
  {
    DivMod(a, m);
    DivMod(b, m);
    Distribute(a / m + b / m, b / m, m);
    ModIs(a + b, m, a / m + b / m, 0);
  }

  /** One level up, the floor stays or drops by half. */
  lemma FloorUp(x: nat, k: nat)
    ensures Floor(x, k + 1) == Floor(x, k) || Floor(x, k + 1) + Size(k) == Floor(x, k)
    ensures Floor(Floor(x, k), k + 1) == Floor(x, k + 1)
    ensures Aligned(Floor(x, k + 1), k)
  {
    hide Size, Floor, Aligned;
    FloorNested(x, k, k + 1);
    assert Floor(x, k + 1) == Floor(x, k) || Floor(x, k + 1) + Size(k) == Floor(x, k) by { FloorSteps(x, k); }
  }

  lemma FloorSteps(x: nat, k: nat)
    ensures Floor(x, k + 1) == Floor(x, k) || Floor(x, k + 1) + Size(k) == Floor(x, k)
  {
    hide Size, Down;
    DownUp(x, k);
  }

  /** Floors nest, and larger ones are aligned for smaller sizes. */
  lemma FloorNested(x: nat, j: nat, k: nat)
    requires j <= k
    ensures Floor(Floor(x, j), k) == Floor(x, k)
    ensures Aligned(Floor(x, k), j)
  {
    hide Size, Down, Low;
    LowBound(x);
    DownFacts(x, j);
    DownFacts(x, k);
    DownBelow(x, j, k);
    LowOf(Down(x, j), Low(x), j);
    FloorAtMost(x, j);
    DownIs(Floor(x, j), k, Down(x, k));
    SmallerMultiple(Down(x, k), j, k);
    LowOf(Down(x, k), Low(x), j);
  }

  lemma FloorAtMost(x: nat, k: nat)
    ensures Floor(x, k) <= x
  {
    hide Size, Down, Low;
    DownBelow(x, 0, k);
    LowSplits(x);
  }

  /** Aligned for a size is aligned for every smaller one. */
  lemma AlignedDown(a: nat, i: nat, k: nat)
    requires i <= k && Aligned(a, k)
    ensures Aligned(a, i)
  {
    hide Size, Floor;
    FloorNested(a, i, k);
  }

  lemma AlignedShift(a: nat, k: nat)
    requires Aligned(a, k)
    ensures Aligned(a + Size(k), k) && Low(a + Size(k)) == Low(a)
  {
    hide Size, Down, Low;
    LowBound(a);
    DownFacts(a, k);
    ShiftMultiple(Down(a, k), Size(k));
    LowOf(Down(a, k) + Size(k), Low(a), k);
  }

  /** Without low bits, aligned means a multiple of the size. */
  lemma AlignedMultiple(a: nat, k: nat)
    requires Low(a) == 0
    ensures Aligned(a, k) <==> a % Size(k) == 0
  {
    hide Size;
  }

  /** A region base is aligned exactly if its bits 14 to 17 are clear. */
  lemma AlignedBase(r: nat)
    ensures Aligned(r, TOP) <==> r % REGION < Size(0)
  {
    RegionSize();
    hide Size;
    SizesGrow(0, TOP);
    LowBound(r);
    DownFacts(r, TOP);
    DownFacts(r, 0);
    if r % REGION < Size(0) {
      LowOf(Down(r, TOP), r % REGION, TOP);
    }
  }

  /** A block lies inside its region. */
  lemma BlockInChunk(a: nat, k: nat)
    requires Aligned(a, k) && k <= TOP
    ensures Chunk(a) <= a && a + Size(k) <= Chunk(a) + Size(TOP)
  {
    hide Size, Down, Low;
    DownFacts(a, k);
    DownFacts(a, TOP);
    DownBelow(a, k, TOP);
    SmallerMultiple(Down(a, TOP), k, TOP);
    SizesGrow(k, TOP);
    SumMultiple(Down(a, TOP), Size(TOP), Size(k));
    MultipleGap(Down(a, k), Down(a, TOP) + Size(TOP), Size(k));
  }

  /** The other half of the parent of the block at `a`. */
  function Buddy(a: nat, k: nat): (b: nat)
    requires Aligned(a, k)
  {
    if Floor(a, k + 1) == a then a + Size(k) else Floor(a, k + 1)
  }

  lemma BuddyFacts(a: nat, k: nat)
    requires Aligned(a, k)
    ensures var b, p := Buddy(a, k), Floor(a, k + 1);
            && Aligned(b, k) && b != a
            && Floor(b, k + 1) == p
            && ((a == p && b == p + Size(k)) || (b == p && a == p + Size(k)))
            && Buddy(b, k) == a
  {
    hide Size, Floor, Low;
    FloorUp(a, k);
    AlignedIs(a, k);
    var p := Floor(a, k + 1);
    FloorFacts(a, k + 1);
    SizeDoubles(k);
    AlignedShift(p, k);
    FloorIs(p, k + 1, p);
    FloorIs(p + Size(k), k + 1, p);
  }

  lemma AlignedIs(a: nat, k: nat)
    requires Aligned(a, k)
    ensures Floor(a, k) == a
  {
  }

  /** `coalesce` finds the buddy by exclusive or on the absolute address. */
  lemma XorIsBuddy(a: nat, k: nat)
    requires Aligned(a, k)
    ensures Xor(a, Pow2(MIN_ORDER + k)) == Buddy(a, k)
  {
    XorFlipsBit(a, MIN_ORDER + k);
    assert Size(k) == Pow2(MIN_ORDER + k);
    hide Pow2, Xor, Size;
    WhichHalf(a, k);
  }

  /** Bit k of an aligned start says which half of its parent it is. */
  lemma WhichHalf(a: nat, k: nat)
    requires Aligned(a, k)
    ensures (a / Size(k)) % 2 == 0 ==> Floor(a, k + 1) == a
    ensures (a / Size(k)) % 2 == 1 ==> Floor(a, k + 1) + Size(k) == a
  {
    hide Size, Low;
    var s, q := Size(k), a / Size(k);
    SizeDoubles(k);
    LowBound(a);
    SizesGrow(0, k);
    DivMod(a, s);
    TwoFactors(q / 2, s);
    assert a % s == Low(a) by { AlignedRemainder(a, k); }
    if q % 2 == 0 {
      assert q == 2 * (q / 2);
      ModIs(a, 2 * s, q / 2, Low(a));
    } else {
      assert q == 2 * (q / 2) + 1;
      ModIs(a, 2 * s, q / 2, s + Low(a));
    }
  }

  lemma AlignedRemainder(a: nat, k: nat)
    requires Aligned(a, k)
    ensures a % Size(k) == Low(a)
  {
    hide Size;
  }

  lemma TwoFactors(p: int, s: int)
    ensures (2 * p) * s == p * (2 * s)
    ensures (2 * p + 1) * s == p * (2 * s) + s
  {
  }

  // ------------------------------------------------------------------
  // Tilings
  // ------------------------------------------------------------------

  /** The block of size class `k` whose range would contain `x` exists. */
  predicate Covers(blocks: map<nat, nat>, x: nat, k: nat) {
    Floor(x, k) in blocks && blocks[Floor(x, k)] == k
  }

  /** `blocks` maps the start of each block to its size class.  Every block is
      aligned to its size and lies in a region, and every byte of every region
      is in exactly one block. */
  ghost predicate Tiled(blocks: map<nat, nat>, regions: set<nat>) {
    && (forall a :: a in blocks ==> BlockOk(blocks, regions, a))
    && (forall x: nat, j: nat, k: nat :: Covers(blocks, x, j) && Covers(blocks, x, k) ==> j == k)
    && (forall x: nat :: Chunk(x) in regions ==> Covered(blocks, x))
  }

  ghost predicate BlockOk(blocks: map<nat, nat>, regions: set<nat>, a: nat)
    requires a in blocks
  {
    blocks[a] <= TOP && Aligned(a, blocks[a]) && Chunk(a) in regions
  }

  ghost predicate Covered(blocks: map<nat, nat>, x: nat) {
    exists k: nat :: k <= TOP && Covers(blocks, x, k)
  }

  /** A block covers its own start, and only it does. */
  lemma CoversSelf(blocks: map<nat, nat>, regions: set<nat>, a: nat)
    requires Tiled(blocks, regions) && a in blocks
    ensures Covers(blocks, a, blocks[a])
    ensures forall k :: Covers(blocks, a, k) ==> k == blocks[a]
  {
    hide Size, Floor, Chunk;
    assert BlockOk(blocks, regions, a);
    FloorIs(a, blocks[a], a);
  }

  lemma OkBlock(blocks: map<nat, nat>, regions: set<nat>, a: nat)
    requires Tiled(blocks, regions) && a in blocks
    ensures BlockOk(blocks, regions, a)
  {
  }

  lemma CoverUnique(blocks: map<nat, nat>, regions: set<nat>, x: nat, j: nat, k: nat)
    requires Tiled(blocks, regions) && Covers(blocks, x, j) && Covers(blocks, x, k)
    ensures j == k
  {
  }

  lemma CoverOf(blocks: map<nat, nat>, regions: set<nat>, x: nat) returns (k: nat)
    requires Tiled(blocks, regions) && Chunk(x) in regions
    ensures k <= TOP && Covers(blocks, x, k)
  {
    hide Covers;
    assert Covered(blocks, x);
    k :| k <= TOP && Covers(blocks, x, k);
  }

  /** Every address `coalesce` reads as a buddy header is the start of a block. */
  lemma BuddyIsBlock(blocks: map<nat, nat>, regions: set<nat>, a: nat, k: nat)
    requires Tiled(blocks, regions) && a in blocks && blocks[a] == k && k < TOP
    ensures Aligned(a, k)
    ensures var b := Buddy(a, k);
            b in blocks && blocks[b] <= k && Chunk(b) == Chunk(a)
  {
    hide Size, Floor, Buddy, Tiled;
    OkBlock(blocks, regions, a);
    BuddyFacts(a, k);
    var b := Buddy(a, k);
    FloorNested(a, k + 1, TOP);
    FloorNested(b, k + 1, TOP);
    var i := CoverOf(blocks, regions, b);
    FloorIs(a, k, a);
    if i > k {
      FloorNested(a, k + 1, i);
      FloorNested(b, k + 1, i);
      CoverUnique(blocks, regions, a, i, k);
    }
    AlignedDown(b, i, k);
    FloorIs(b, i, b);
  }

  /** The block a covered start belongs to is the one that starts there. */
  lemma BlockOfItself(blocks: map<nat, nat>, regions: set<nat>, b: nat, j: nat)
    requires Tiled(blocks, regions) && b in blocks && Covers(blocks, b, j)
    ensures Floor(b, j) == b
  {
    hide Size, Tiled, Floor, Chunk;
    OkBlock(blocks, regions, b);
    CoversSelf(blocks, regions, b);
    FloorIs(b, blocks[b], b);
  }

  // Splitting and merging

  function SplitBlocks(blocks: map<nat, nat>, c: nat, k: nat): map<nat, nat> {
    blocks[c := k][c + Size(k) := k]
  }

  function MergeBlocks(blocks: map<nat, nat>, p: nat, k: nat): map<nat, nat> {
    (blocks - {p + Size(k)})[p := k + 1]
  }

  /** The upper half of a block is not itself a block. */
  lemma UpperHalfIsNoBlock(blocks: map<nat, nat>, regions: set<nat>, c: nat, k: nat)
    requires Tiled(blocks, regions) && c in blocks && blocks[c] == k + 1
    ensures c + Size(k) !in blocks
  {
    hide Size, Floor, Chunk;
    assert BlockOk(blocks, regions, c);
    SizeDoubles(k);
    var u := c + Size(k);
    AlignedDown(c, k, k + 1);
    AlignedShift(c, k);
    FloorIs(u, k + 1, c);
    assert Covers(blocks, u, k + 1);
    if u in blocks {
      BlockOfItself(blocks, regions, u, k + 1);
    }
  }

  /** Which floors of size class `k` fall into the parent at `p`. */
  lemma HalvesOf(x: nat, p: nat, k: nat)
    requires Aligned(p, k + 1)
    ensures Floor(x, k + 1) == p <==> Floor(x, k) == p || Floor(x, k) == p + Size(k)
  {
    hide Size, Floor;
    SizeDoubles(k);
    FloorUp(x, k);
    FloorFacts(x, k);
    FloorFacts(x, k + 1);
    AlignedDown(p, k, k + 1);
    AlignedShift(p, k);
    if Floor(x, k) == p || Floor(x, k) == p + Size(k) {
      FloorIs(x, k + 1, p);
    }
  }

  lemma SplitCovers(blocks: map<nat, nat>, regions: set<nat>, c: nat, k: nat, x: nat, i: nat)
    requires Tiled(blocks, regions) && c in blocks && blocks[c] == k + 1
    ensures Covers(SplitBlocks(blocks, c, k), x, i) <==> if Floor(x, k + 1) == c then i == k else Covers(blocks, x, i)
  {
    hide Size, Floor, Chunk, Tiled;
    OkBlock(blocks, regions, c);
    UpperHalfIsNoBlock(blocks, regions, c, k);
    HalvesOf(x, c, k);
    if Floor(x, k + 1) == c && Covers(blocks, x, i) {
      CoverUnique(blocks, regions, x, i, k + 1);
    }
  }

  lemma MergeCovers(blocks: map<nat, nat>, regions: set<nat>, p: nat, k: nat, x: nat, i: nat)
    requires Tiled(blocks, regions) && Aligned(p, k + 1)
    requires p in blocks && blocks[p] == k && p + Size(k) in blocks && blocks[p + Size(k)] == k
    ensures Covers(MergeBlocks(blocks, p, k), x, i) <==> if Floor(x, k + 1) == p then i == k + 1
            else Covers(blocks, x, i)
  {
    hide Size, Floor, Chunk, Tiled;
    HalvesOf(x, p, k);
    if Floor(x, k + 1) == p && Covers(blocks, x, i) {
      CoverUnique(blocks, regions, x, i, k);
    }
  }

  lemma SplitKeepsTiled(blocks: map<nat, nat>, regions: set<nat>, c: nat, k: nat)
    requires Tiled(blocks, regions) && c in blocks && blocks[c] == k + 1
    ensures Tiled(SplitBlocks(blocks, c, k), regions)
  {
    hide Size, Floor, Chunk, Covers, SplitBlocks;
    var blocks' := SplitBlocks(blocks, c, k);
    forall a | a in blocks'
      ensures BlockOk(blocks', regions, a)
    {
      SplitBlockOk(blocks, regions, c, k, a);
    }
    forall x: nat, i: nat
      ensures Covers(blocks', x, i) <==> if Floor(x, k + 1) == c then i == k else Covers(blocks, x, i)
    {
      SplitCovers(blocks, regions, c, k, x, i);
    }
    OkBlock(blocks, regions, c);
    forall x: nat | Chunk(x) in regions
      ensures Covered(blocks', x)
    {
      var i := CoverOf(blocks, regions, x);
      assert Covers(blocks', x, if Floor(x, k + 1) == c then k else i);
    }
  }

  lemma SplitBlockOk(blocks: map<nat, nat>, regions: set<nat>, c: nat, k: nat, a: nat)
    requires Tiled(blocks, regions) && c in blocks && blocks[c] == k + 1 && a in SplitBlocks(blocks, c, k)
    ensures BlockOk(SplitBlocks(blocks, c, k), regions, a)
  {
    hide Size, Floor, Covers;
    assert BlockOk(blocks, regions, c);
    if a == c || a == c + Size(k) {
      SizeDoubles(k);
      AlignedDown(c, k, k + 1);
      AlignedShift(c, k);
      FloorIs(a, k + 1, c);
      FloorNested(a, k + 1, TOP);
    } else {
      assert BlockOk(blocks, regions, a);
    }
  }

  lemma MergeKeepsTiled(blocks: map<nat, nat>, regions: set<nat>, p: nat, k: nat)
    requires Tiled(blocks, regions) && Aligned(p, k + 1) && k < TOP
    requires p in blocks && blocks[p] == k && p + Size(k) in blocks && blocks[p + Size(k)] == k
    ensures Tiled(MergeBlocks(blocks, p, k), regions)
  {
    hide Size, Floor, Chunk, Covers;
    var blocks' := MergeBlocks(blocks, p, k);
    forall a | a in blocks'
      ensures BlockOk(blocks', regions, a)
    {
      assert BlockOk(blocks, regions, a);
    }
    forall x: nat, i: nat
      ensures Covers(blocks', x, i) <==> if Floor(x, k + 1) == p then i == k + 1 else Covers(blocks, x, i)
    {
      MergeCovers(blocks, regions, p, k, x, i);
    }
    forall x: nat | Chunk(x) in regions
      ensures Covered(blocks', x)
    {
      var i := CoverOf(blocks, regions, x);
      assert Covers(blocks', x, if Floor(x, k + 1) == p then k + 1 else i);
    }
  }

  /** Splitting and merging undo each other. */
  lemma MergeUndoesSplit(blocks: map<nat, nat>, regions: set<nat>, c: nat, k: nat)
    requires Tiled(blocks, regions) && c in blocks && blocks[c] == k + 1
    ensures MergeBlocks(SplitBlocks(blocks, c, k), c, k) == blocks
  {
    UpperHalfIsNoBlock(blocks, regions, c, k);
  }

  lemma AddRegionKeepsTiled(blocks: map<nat, nat>, regions: set<nat>, r: nat)
    requires Tiled(blocks, regions) && Aligned(r, TOP) && r !in regions
    ensures Tiled(blocks[r := TOP], regions + {r})
  {
    hide Size, Floor;
    var blocks', regions' := blocks[r := TOP], regions + {r};
    FloorIs(r, TOP, r);
    assert forall a :: a in blocks ==> BlockOk(blocks, regions, a);
    assert r !in blocks;
    forall a | a in blocks'
      ensures BlockOk(blocks', regions', a)
    {
      assert a != r ==> BlockOk(blocks, regions, a);
    }
    forall x: nat, i: nat
      ensures Covers(blocks', x, i) <==> if Chunk(x) == r then i == TOP else Covers(blocks, x, i)
    {
      RegionCovers(blocks, regions, r, x, i);
    }
    forall x: nat | Chunk(x) in regions'
      ensures Covered(blocks', x)
    {
      if Chunk(x) == r {
        assert Covers(blocks', x, TOP);
      } else {
        var i := CoverOf(blocks, regions, x);
        assert Covers(blocks', x, i);
      }
    }
  }

  lemma RegionCovers(blocks: map<nat, nat>, regions: set<nat>, r: nat, x: nat, i: nat)
    requires Tiled(blocks, regions) && Aligned(r, TOP) && r !in regions && r !in blocks
    ensures Covers(blocks[r := TOP], x, i) <==> if Chunk(x) == r then i == TOP else Covers(blocks, x, i)
  {
    hide Size, Floor;
    if Covers(blocks, x, i) {
      assert BlockOk(blocks, regions, Floor(x, i));
      FloorNested(x, i, TOP);
    }
  }
}
