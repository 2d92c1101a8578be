/** What the buddy allocator promises over whole runs: the invariant, exact
    undo, and full coalescing of the current region. */
module BuddyLaws {
  import opened Bits
  import opened Common
  import opened BuddySpec
  import opened BuddyHeap

  // ------------------------------------------------------------------
  // The loops keep the invariant
  // ------------------------------------------------------------------

  /** Blocks in use other than `except` are the same in both heaps. */
  ghost predicate KeepsOthers(h: Heap, h': Heap, except: nat) {
    && h'.regions == h.regions && h'.base == h.base && h'.limit == h.limit
    && forall x :: x in h.live && x != except ==>
        x in h'.live && x in h.blocks && x in h'.blocks && h'.blocks[x] == h.blocks[x]
  }

  lemma KeepsOthersTrans(h0: Heap, h1: Heap, h2: Heap, a: nat, p: nat)
    requires KeepsOthers(h0, h1, a) && KeepsOthers(h1, h2, p) && (p == a || p !in h0.live)
    ensures KeepsOthers(h0, h2, a)
  {
  }

  lemma {:induction false} SplitDownKeeps(h: Heap, c: nat, from: nat, to: nat)
    requires WellFormed(h) && IsLive(h, c) && h.blocks[c] == from && to <= from <= TOP
    ensures var h' := SplitDown(h, c, from, to);
            WellFormed(h') && IsLive(h', c) && h'.blocks[c] == to && h'.live == h.live && KeepsOthers(h, h', c)
    decreases from
  {
    hide Size, Tiled, Maximal, WellFormed;
    assert h.blocks.Keys >= h.live by { LiveAreBlocks(h); }
    if to < from {
      ListsThere(h);
      var h1 := SplitOnce(h, c, from - 1);
      SplitKeeps(h, c, from - 1);
      ListsThere(h1);
      SplitDownKeeps(h1, c, from - 1, to);
      SplitOthers(h, c, from - 1);
      KeepsOthersTrans(h, h1, SplitDown(h, c, from, to), c, c);
    }
  }

  lemma ListsThere(h: Heap)
    requires WellFormed(h)
    ensures |h.lists| == NUM_ORDERS
  {
    hide Tiled, Maximal;
  }

  lemma LiveAreBlocks(h: Heap)
    requires WellFormed(h)
    ensures h.live <= h.blocks.Keys
  {
    hide Tiled, Maximal;
  }

  lemma SplitOthers(h: Heap, c: nat, k: nat)
    requires WellFormed(h) && IsLive(h, c) && h.blocks[c] == k + 1 && k < TOP
    requires |h.lists| == NUM_ORDERS
    ensures KeepsOthers(h, SplitOnce(h, c, k), c)
  {
    hide Size, Tiled, Maximal;
    UpperHalfIsNoBlock(h.blocks, h.regions, c, k);
  }

  lemma MergeOthers(h: Heap, a: nat, k: nat)
    requires WellFormed(h) && k < TOP && IsLive(h, a) && h.blocks[a] == k && Aligned(a, k) && IsFree(h, Buddy(a, k), k)
    requires |h.lists| == NUM_ORDERS
    ensures KeepsOthers(h, MergeOnce(h, a, k), a)
    ensures MergeOnce(h, a, k).live == h.live - {a} + {Floor(a, k + 1)}
    ensures Floor(a, k + 1) == a || Floor(a, k + 1) !in h.live
  {
    hide Size, Tiled, Maximal, Floor, Buddy, Remove;
    BuddyFacts(a, k);
  }

  /** Freeing keeps the invariant and takes exactly `a` out of use. */
  lemma {:induction false} CoalesceKeeps(h: Heap, a: nat, k: nat)
    requires WellFormed(h) && IsLive(h, a) && h.blocks[a] == k && k <= TOP && Aligned(a, k)
    requires |h.lists| == NUM_ORDERS
    ensures var h' := Coalesce(h, a, k);
            WellFormed(h') && h'.live == h.live - {a} && KeepsOthers(h, h', a)
    decreases TOP - k
  {
    hide Size, Tiled, Maximal, WellFormed, Floor, Buddy, Remove, IsFree, Chunk;
    LiveAreBlocks(h);
    if CanMerge(h, a, k) {
      var h1, p := MergeOnce(h, a, k), Floor(a, k + 1);
      MergeKeeps(h, a, k);
      MergeOthers(h, a, k);
      FloorFacts(a, k + 1);
      CoalesceKeeps(h1, p, k + 1);
      KeepsOthersTrans(h, h1, Coalesce(h1, p, k + 1), a, p);
    } else {
      PutBackKeeps(h, a, k);
    }
  }

  /** Allocating keeps the invariant and hands out exactly one idle block, of
      the requested size class, aligned to its size. */
  lemma AllocKeeps(h: Heap, k: nat)
    requires WellFormed(h) && k <= TOP && |h.lists| == NUM_ORDERS && Find(h.lists, k) < NUM_ORDERS
    ensures var h', c := AllocFrom(h, k), h.lists[Find(h.lists, k)][0];
            WellFormed(h') && c !in h.live && h'.live == h.live + {c} && IsLive(h', c) && h'.blocks[c] == k
            && Aligned(c, k) && Chunk(c) in h.regions && KeepsOthers(h, h', c)
  {
    hide Size, Tiled, Maximal, WellFormed, Floor, Chunk;
    var j := Find(h.lists, k);
    var c, h1 := h.lists[j][0], Take(h, j);
    TakeKeeps(h, j);
    LiveAreBlocks(h);
    assert KeepsOthers(h, h1, c);
    SplitDownKeeps(h1, c, j, k);
    var h' := SplitDown(h1, c, j, k);
    KeepsOthersTrans(h, h1, h', c, c);
    assert h' == AllocFrom(h, k);
    BlockFacts(h', c);
  }

  lemma BlockFacts(h: Heap, c: nat)
    requires WellFormed(h) && c in h.blocks
    ensures h.blocks[c] <= TOP && Aligned(c, h.blocks[c]) && Chunk(c) in h.regions && Chunk(c) > 0
  {
    hide Tiled, Maximal, Size, Floor;
    OkBlock(h.blocks, h.regions, c);
  }

  // ------------------------------------------------------------------
  // Freeing at once what was allocated
  // ------------------------------------------------------------------

  /** One turn of the coalesce loop undoes one turn of the split loop. */
  lemma MergeOnceUndoes(h: Heap, c: nat, k: nat)
    requires WellFormed(h) && IsLive(h, c) && h.blocks[c] == k + 1 && k < TOP && Chunk(c) == h.base
    requires |h.lists| == NUM_ORDERS && Aligned(c, k)
    ensures var h' := SplitOnce(h, c, k);
            CanMerge(h', c, k) && Floor(c, k + 1) == c && MergeOnce(h', c, k) == h
  {
    hide Size, Tiled, Maximal, Floor, IsFree, MergeBlocks, SplitBlocks;
    var h' := SplitOnce(h, c, k);
    OkBlock(h.blocks, h.regions, c);
    SplitBuddy(c, k);
    UpperHalfIsNoBlock(h.blocks, h.regions, c, k);
    LiveAreBlocks(h);
    SplitFrees(h, c, k, c + Size(k), k);
    assert IsFree(h', Buddy(c, k), k);
    assert h'.base != 0 && h'.base <= Buddy(c, k) < h'.base + h'.limit by {
      SplitKeeps(h, c, k);
      MergeInRegion(h', c, k);
    }
    MergeUndoesSplit(h.blocks, h.regions, c, k);
    assert Remove(h'.lists[k], c + Size(k)) == h.lists[k];
    assert h'.lists[k := h.lists[k]] == h.lists;
    assert h'.live - {c} + {c} == h.live;
  }

  /** The coalesce loop undoes the split loop, level by level. */
  lemma {:induction false} CoalesceUndoesSplit(h: Heap, c: nat, from: nat, to: nat)
    requires WellFormed(h) && IsLive(h, c) && h.blocks[c] == from && to <= from <= TOP && Chunk(c) == h.base
    requires |h.lists| == NUM_ORDERS && Aligned(c, from) && Aligned(c, to)
    requires |SplitDown(h, c, from, to).lists| == NUM_ORDERS
    ensures Coalesce(SplitDown(h, c, from, to), c, to) == Coalesce(h, c, from)
    decreases from
  {
    hide Size, Tiled, Maximal, WellFormed, Floor, IsFree, Chunk, CanMerge, MergeOnce;
    if to < from {
      var k := from - 1;
      var h1 := SplitOnce(h, c, k);
      AlignedDown(c, k, from);
      SplitKeeps(h, c, k);
      CoalesceUndoesSplit(h1, c, k, to);
      MergeOnceUndoes(h, c, k);
      assert Coalesce(h1, c, k) == Coalesce(h, c, from);
    }
  }

  /** A block just taken from its list goes straight back. */
  lemma PutBackUndoesTake(h: Heap, j: nat)
    requires WellFormed(h) && j <= TOP && |h.lists| == NUM_ORDERS && h.lists[j] != []
    ensures Aligned(h.lists[j][0], j)
    ensures Coalesce(Take(h, j), h.lists[j][0], j) == h
  {
    hide Size, Tiled, Maximal, WellFormed, Floor, Buddy, Chunk;
    var c, h1 := h.lists[j][0], Take(h, j);
    TakeKeeps(h, j);
    BlockFacts(h1, c);
    assert !CanMerge(h1, c, j) by { NoMergeAfterTake(h, j); }
    assert [c] + h1.lists[j] == h.lists[j];
    assert h1.lists[j := [c] + h1.lists[j]] == h.lists;
    assert h1.live - {c} == h.live;
  }

  lemma NoMergeAfterTake(h: Heap, j: nat)
    requires WellFormed(h) && j <= TOP && |h.lists| == NUM_ORDERS && h.lists[j] != []
    requires Aligned(h.lists[j][0], j)
    ensures !CanMerge(Take(h, j), h.lists[j][0], j)
  {
    hide Size, Tiled, Floor, Buddy, Chunk, Maximal;
    var c, h1 := h.lists[j][0], Take(h, j);
    TakeKeeps(h, j);
    if j < TOP {
      MergeInRegion(h1, c, j);
      if Chunk(c) == h.base {
        MaximalAt(h, c, j);
      }
    }
  }

  lemma MaximalAt(h: Heap, a: nat, k: nat)
    requires Maximal(h) && k < TOP && IsFree(h, a, k) && Chunk(a) == h.base && Aligned(a, k)
    ensures !IsFree(h, Buddy(a, k), k)
  {
  }

  /** Allocating and freeing at once restores every list, element by element,
      exactly when nothing was split or the block lies in the current region. */
  lemma FreeUndoesAlloc(h: Heap, k: nat)
    requires WellFormed(h) && k <= TOP && |h.lists| == NUM_ORDERS && Find(h.lists, k) < NUM_ORDERS
    ensures var j := Find(h.lists, k);
            var c, h' := h.lists[j][0], AllocFrom(h, k);
            Aligned(c, k) && |h'.lists| == NUM_ORDERS
            && (Coalesce(h', c, k) == h <==> j == k || Chunk(c) == h.base)
  {
    hide Size, Tiled, Maximal, WellFormed, Floor, Buddy, Chunk, Coalesce, SplitDown;
    var j := Find(h.lists, k);
    var c, h', h1 := h.lists[j][0], AllocFrom(h, k), Take(h, j);
    AllocKeeps(h, k);
    ListsThere(h');
    PutBackUndoesTake(h, j);
    if j == k {
      SplitDownNothing(h1, c, k);
    } else if Chunk(c) == h.base {
      TakeKeeps(h, j);
      CoalesceUndoesSplit(h1, c, j, k);
    } else {
      NoUndoOutside(h', c, k);
    }
  }

  lemma SplitDownNothing(h: Heap, c: nat, k: nat)
    requires k <= |h.lists|
    ensures SplitDown(h, c, k, k) == h
  {
  }

  /** Outside the current region nothing is merged. */
  lemma NoUndoOutside(h: Heap, c: nat, k: nat)
    requires WellFormed(h) && IsLive(h, c) && h.blocks[c] == k && k < TOP && Chunk(c) != h.base
    requires |h.lists| == NUM_ORDERS && Aligned(c, k)
    ensures Coalesce(h, c, k) == PutBack(h, c, k)
    ensures Coalesce(h, c, k).lists[k] != []
  {
    hide Size, Tiled, Maximal, Floor, Buddy, IsFree, Chunk, ListsOk;
    MergeInRegion(h, c, k);
  }

  // ------------------------------------------------------------------
  // Full coalescing
  // ------------------------------------------------------------------

  ghost predicate NothingLive(h: Heap) {
    forall a :: a in h.live ==> Chunk(a) != h.base
  }

  /** No block of a size class below `k` is left in the current region. */
  lemma {:induction false} NoneBelow(h: Heap, k: nat, a: nat)
    requires WellFormed(h) && NothingLive(h) && k <= TOP && a in h.blocks && Chunk(a) == h.base
    ensures h.blocks[a] >= k
    decreases k
  {
    hide Size, Tiled, Floor, Buddy, ListsOk, RegionsOk, Maximal;
    if k > 0 {
      NoneBelow(h, k - 1, a);
      if h.blocks[a] == k - 1 {
        BuddyIsBlock(h.blocks, h.regions, a, k - 1);
        NoneBelow(h, k - 1, Buddy(a, k - 1));
        MaximalAt(h, a, k - 1);
      }
    }
  }

  /** When nothing in the current region is allocated it is one free block of
      the top size again, and its only block. */
  lemma IdleRegionIsWhole(h: Heap)
    requires WellFormed(h) && NothingLive(h) && h.base != 0
    ensures IsFree(h, h.base, TOP) && h.base in h.lists[TOP]
    ensures forall a :: a in h.blocks && Chunk(a) == h.base ==> a == h.base
  {
    hide Size, Tiled, Floor, Buddy, Maximal;
    forall a | a in h.blocks && Chunk(a) == h.base
      ensures a == h.base && h.blocks[a] == TOP
    {
      NoneBelow(h, TOP, a);
      OkBlock(h.blocks, h.regions, a);
      FloorIs(a, TOP, a);
    }
    FloorIs(h.base, TOP, h.base);
    var i := CoverOf(h.blocks, h.regions, h.base);
    OkBlock(h.blocks, h.regions, Floor(h.base, i));
    FloorNested(h.base, i, TOP);
  }

  // ------------------------------------------------------------------
  // Runs
  // ------------------------------------------------------------------

  /** A region the page source may answer with: aligned, and disjoint from the
      regions it gave before. */
  ghost predicate FreshRegion(h: Heap, r: nat, size: nat) {
    r > 0 && Aligned(r, TOP) && size >= REGION && forall q :: q in h.regions ==> q + REGION <= r || r + size <= q
  }

  /** `alloc`: from the lists, else from a new region, else refused.  `page` is
      the answer the page source would give. */
  function Allocate(h: Heap, k: nat, page: Option<nat>): (Heap, Option<nat>)
    requires |h.lists| == NUM_ORDERS && k <= TOP
  {
    if Find(h.lists, k) < NUM_ORDERS then
      (AllocFrom(h, k), Some(h.lists[Find(h.lists, k)][0]))
    else match page
      case None => (h, None)
      case Some(r) =>
        var h1 := AddRegion(h, r, REGION);
        FindInNewRegion(h, r, k);
        (AllocFrom(h1, k), Some(r))
  }

  /** After `init` the second attempt of `alloc` succeeds at once. */
  lemma FindInNewRegion(h: Heap, r: nat, k: nat)
    requires |h.lists| == NUM_ORDERS && k <= TOP && Find(h.lists, k) == NUM_ORDERS
    ensures Find(AddRegion(h, r, REGION).lists, k) == TOP
    ensures AddRegion(h, r, REGION).lists[TOP] == [r]
  {
    var lists := AddRegion(h, r, REGION).lists;
    assert forall i :: k <= i < TOP ==> lists[i] == h.lists[i];
    var j := Find(lists, k);
    assert lists[TOP] == [r];
  }

  /** One `alloc` call: the invariant is kept; an answered block was not in use,
      is now, has the requested size class and is aligned to its size; every
      other block in use is untouched; it is refused only if no list at or above
      the size class has a block and the page source refuses. */
  lemma AllocateKeeps(h: Heap, k: nat, page: Option<nat>)
    requires WellFormed(h) && |h.lists| == NUM_ORDERS && k <= TOP
    requires page.Some? ==> FreshRegion(h, page.value, REGION)
    ensures var (h', r) := Allocate(h, k, page);
            && WellFormed(h')
            && (r == None <==> page == None && forall j :: k <= j <= TOP ==> h.lists[j] == [])
            && (r == None ==> h' == h)
            && (r.Some? ==> r.value !in h.live && h'.live == h.live + {r.value} && IsLive(h', r.value)
                            && h'.blocks[r.value] == k && Aligned(r.value, k) && Chunk(r.value) in h'.regions)
            && (forall x :: x in h.live ==> x in h'.blocks && x in h.blocks && h'.blocks[x] == h.blocks[x])
  {
    hide Size, Tiled, Maximal, WellFormed, Floor, Chunk, SplitDown, AllocFrom;
    LiveAreBlocks(h);
    if Find(h.lists, k) < NUM_ORDERS {
      AllocKeeps(h, k);
    } else if page.Some? {
      AllocateFromRegion(h, k, page.value);
    }
  }

  lemma AllocateFromRegion(h: Heap, k: nat, r: nat)
    requires WellFormed(h) && |h.lists| == NUM_ORDERS && k <= TOP && Find(h.lists, k) == NUM_ORDERS
    requires FreshRegion(h, r, REGION)
    ensures var h1 := AddRegion(h, r, REGION);
            Find(h1.lists, k) == TOP && h1.lists[TOP] == [r] && r !in h.live
            && var h' := AllocFrom(h1, k);
            && WellFormed(h') && h'.live == h.live + {r} && IsLive(h', r) && h'.blocks[r] == k
            && Aligned(r, k) && Chunk(r) in h'.regions
            && forall x :: x in h.live ==> x in h'.blocks && x in h.blocks && h'.blocks[x] == h.blocks[x]
  {
    hide Size, Tiled, Maximal, WellFormed, Floor, Chunk, SplitDown, AllocFrom, Find;
    LiveAreBlocks(h);
    FindInNewRegion(h, r, k);
    AddRegionKeeps(h, r, REGION) by { assert h.lists[TOP] == [] by { EmptyAbove(h.lists, k); } }
    assert r !in h.live by { RegionNotLive(h, r); }
    AllocKeeps(AddRegion(h, r, REGION), k);
  }

  lemma EmptyAbove(lists: seq<seq<nat>>, k: nat)
    requires |lists| == NUM_ORDERS && k <= TOP && Find(lists, k) == NUM_ORDERS
    ensures lists[TOP] == []
  {
  }

  lemma RegionNotLive(h: Heap, r: nat)
    requires WellFormed(h) && FreshRegion(h, r, REGION)
    ensures r !in h.live
  {
    hide Size, Tiled, Maximal, Floor, Chunk;
    assert r !in h.regions;
    RegionIsNoBlock(h, r);
  }

  /** `dealloc` of the block at `a`. */
  ghost function Free(h: Heap, a: nat): Heap
    requires WellFormed(h) && IsLive(h, a)
  {
    BlockFacts(h, a);
    Coalesce(h, a, h.blocks[a])
  }

  datatype Call = Alloc(k: nat, page: Option<nat>) | Dealloc(a: nat)

  /** What a caller may do: free a block in use, once; pages are fresh. */
  ghost predicate Allowed(h: Heap, c: Call) {
    match c
    case Alloc(k, page) => k <= TOP && (page.Some? ==> FreshRegion(h, page.value, REGION))
    case Dealloc(a) => IsLive(h, a)
  }

  ghost function Do(h: Heap, c: Call): (h': Heap)
    requires WellFormed(h) && Allowed(h, c)
    ensures WellFormed(h')
  {
    hide Size, Tiled, Maximal, Floor, Chunk, RegionsOk, FreshRegion;
    match c
    case Alloc(k, page) =>
      AllocateKeeps(h, k, page);
      Allocate(h, k, page).0
    case Dealloc(a) =>
      BlockFacts(h, a);
      CoalesceKeeps(h, a, h.blocks[a]);
      Free(h, a)
  }

  /** Every call of the run is allowed where it is made. */
  ghost predicate AllowedRun(h: Heap, calls: seq<Call>)
    requires WellFormed(h)
    decreases |calls|
  {
    hide WellFormed, Do, Allowed;
    calls == [] || (Allowed(h, calls[0]) && AllowedRun(Do(h, calls[0]), calls[1..]))
  }

  ghost function Run(h: Heap, calls: seq<Call>): (h': Heap)
    requires WellFormed(h) && AllowedRun(h, calls)
    ensures WellFormed(h')
    decreases |calls|
  {
    hide WellFormed, Do, Allowed;
    if calls == [] then h else Run(Do(h, calls[0]), calls[1..])
  }

  lemma EmptyIsWellFormed()
    ensures WellFormed(EMPTY)
  {
    hide Size, Floor, Chunk, Buddy;
  }

  /** The block ranges [a, a + 2^order) of two blocks do not meet. */
  lemma BlocksDisjoint(h: Heap, a: nat, b: nat)
    requires WellFormed(h) && a in h.blocks && b in h.blocks && a < b
    ensures a + Size(h.blocks[a]) <= b
  {
    hide Size, Tiled, Floor, Maximal, Chunk, ListsOk, RegionsOk, Low;
    OkBlock(h.blocks, h.regions, a);
    OkBlock(h.blocks, h.regions, b);
    BlockInChunk(a, h.blocks[a]);
    BlockInChunk(b, h.blocks[b]);
    if Chunk(a) == Chunk(b) {
      SameRegionDisjoint(h, a, b);
    } else {
      RegionsDisjoint(h, Chunk(a), Chunk(b));
    }
  }

  lemma RegionsDisjoint(h: Heap, q: nat, r: nat)
    requires RegionsOk(h) && q in h.regions && r in h.regions && q != r
    ensures q + Size(TOP) <= r || r + Size(TOP) <= q
  {
    RegionSize();
    hide Size;
  }

  lemma SameRegionDisjoint(h: Heap, a: nat, b: nat)
    requires Tiled(h.blocks, h.regions) && a in h.blocks && b in h.blocks && a < b && Chunk(a) == Chunk(b)
    ensures a + Size(h.blocks[a]) <= b
  {
    hide Size, Tiled, Floor, Low;
    OkBlock(h.blocks, h.regions, a);
    FloorFacts(a, TOP);
    FloorFacts(b, TOP);
    var j := h.blocks[a];
    if b < a + Size(j) {
      FloorIs(b, j, a);
      BlockOfItself(h.blocks, h.regions, b, j);
    }
  }

  /** In a region whose base has no low bits, as one that is a multiple of 2^18,
      every block starts at a multiple of its size. */
  lemma BlocksAreMultiples(h: Heap, a: nat)
    requires WellFormed(h) && a in h.blocks && Low(Chunk(a)) == 0
    ensures a % Size(h.blocks[a]) == 0
  {
    hide Size, Tiled, Floor, Maximal, ListsOk, RegionsOk, Low;
    OkBlock(h.blocks, h.regions, a);
    FloorFacts(a, TOP);
    AlignedMultiple(a, h.blocks[a]);
  }

  /** Every byte of every region is in exactly one block. */
  lemma EveryByteInOneBlock(h: Heap, r: nat, y: nat) returns (a: nat)
    requires WellFormed(h) && r in h.regions && r <= y < r + REGION
    ensures a in h.blocks && a <= y < a + Size(h.blocks[a])
    ensures forall b :: b in h.blocks && b <= y < b + Size(h.blocks[b]) ==> b == a
  {
    hide Size, Tiled, Floor, Maximal, Chunk, ListsOk, Low;
    var x := SmallestAt(h, r, y);
    var k := CoverOf(h.blocks, h.regions, x);
    a := Floor(x, k);
    FloorFacts(x, k);
    OkBlock(h.blocks, h.regions, a);
    AlignedDown(x, 0, 0);
    SmallestInside(x, k);
    forall b | b in h.blocks && b <= y < b + Size(h.blocks[b])
      ensures b == a
    {
      if b < a {
        BlocksDisjoint(h, b, a);
      } else if a < b {
        BlocksDisjoint(h, a, b);
      }
    }
  }

  /** The block of the smallest class that would hold byte `y` of region `r`. */
  lemma SmallestAt(h: Heap, r: nat, y: nat) returns (x: nat)
    requires RegionsOk(h) && r in h.regions && r <= y < r + REGION
    ensures Aligned(x, 0) && Chunk(x) in h.regions && x <= y < x + Size(0)
  {
    hide Size, Floor, Down, Low;
    var f := Down(y - r, 0);
    DownFacts(y - r, 0);
    x := r + f;
    AlignedDown(r, 0, TOP);
    LowKept(r, f);
    RegionSize();
    FloorIs(x, TOP, r);
  }

  lemma LowKept(r: nat, f: nat)
    requires f % Size(0) == 0
    ensures Low(r + f) == Low(r) && Aligned(r + f, 0)
  {
    hide Size, Down, Low;
    LowBound(r);
    DownFacts(r, 0);
    LowSplits(r);
    SumMultiple(Down(r, 0), f, Size(0));
    LowOf(Down(r, 0) + f, Low(r), 0);
  }

  /** A start of the smallest class and its block lie in every larger block at
      its floor. */
  lemma SmallestInside(x: nat, k: nat)
    ensures Floor(x, k) <= x && x + Size(0) <= Floor(x, k) + Size(k)
  {
    hide Size, Down, Low;
    DownFacts(x, 0);
    DownFacts(x, k);
    DownBelow(x, 0, k);
    LowSplits(x);
    SizesGrow(0, k);
    SmallerMultiple(Down(x, k), 0, k);
    SumMultiple(Down(x, k), Size(k), Size(0));
    MultipleGap(Down(x, 0), Down(x, k) + Size(k), Size(0));
  }

  /** After every run of calls from a new allocator: each region is exactly tiled
      by blocks aligned to their size, each free block is in the list of its size
      class and in no other, each list has no repetition, blocks in use do not
      overlap, and a current region with nothing in use is one free block. */
  lemma EveryRun(calls: seq<Call>)
    requires WellFormed(EMPTY) && AllowedRun(EMPTY, calls)
    ensures var h := Run(EMPTY, calls);
      && Tiled(h.blocks, h.regions)
      && |h.lists| == NUM_ORDERS
      && (forall k :: 0 <= k < NUM_ORDERS ==> Distinct(h.lists[k]))
      && (forall k, a: nat :: 0 <= k < NUM_ORDERS ==> (a in h.lists[k] <==> IsFree(h, a, k)))
      && (forall a, b :: a in h.blocks && b in h.blocks && a < b ==> a + Size(h.blocks[a]) <= b)
      && (NothingLive(h) && h.base != 0 ==>
            IsFree(h, h.base, TOP) && forall a :: a in h.blocks && Chunk(a) == h.base ==> a == h.base)
  {
    hide Size, Tiled, Floor, Maximal, Chunk, Run, AllowedRun, NothingLive;
    var h := Run(EMPTY, calls);
    forall a, b | a in h.blocks && b in h.blocks && a < b
      ensures a + Size(h.blocks[a]) <= b
    {
      BlocksDisjoint(h, a, b);
    }
    if NothingLive(h) && h.base != 0 {
      IdleRegionIsWhole(h);
    }
  }

  lemma FirstSplit(h: Heap, c: nat, k: nat)
    requires k < |h.lists| && h.lists[k] == []
    ensures SplitOnce(h, c, k).lists == h.lists[k := [c + Size(k)]]
  {
    hide Size;
    assert [c + Size(k)] + [] == [c + Size(k)];
  }

  /** The first 16 KB allocation of a new allocator: the lower end of the new
      region is handed out, and one block of each smaller half stays free. */
  lemma FirstAllocation(r: nat)
    requires r > 0 && Aligned(r, TOP)
    ensures Allowed(EMPTY, Alloc(0, Some(r)))
    ensures var (h, c) := Allocate(EMPTY, 0, Some(r));
            c == Some(r) && h.lists == [[r + Size(0)], [r + Size(1)], [r + Size(2)], [r + Size(3)], []] && h.live == {r}
  {
    hide Size;
    RegionSize();
    var h := AddRegion(EMPTY, r, REGION);
    FindInNewRegion(EMPTY, r, 0);
    var h4 := Take(h, TOP);
    var h3 := SplitOnce(h4, r, 3);
    var h2 := SplitOnce(h3, r, 2);
    var h1 := SplitOnce(h2, r, 1);
    assert [r][1..] == [];
    assert h4.lists[TOP] == [] && forall i :: 0 <= i < TOP ==> h4.lists[i] == [];
    FirstSplit(h4, r, 3);
    FirstSplit(h3, r, 2);
    FirstSplit(h2, r, 1);
    FirstSplit(h1, r, 0);
    assert SplitDown(h4, r, 4, 0) == SplitDown(h3, r, 3, 0) == SplitDown(h2, r, 2, 0) == SplitDown(h1, r, 1, 0);
    assert SplitDown(h1, r, 1, 0) == SplitOnce(h1, r, 0);
  }

  // ------------------------------------------------------------------
  // Regions that are only page aligned
  // ------------------------------------------------------------------

  /** In a region at `base`, `split` pairs the block at offset `off` with the one
      whose offset differs in the bit of its order; `coalesce` takes the exclusive
      or of the absolute address. */
  ghost predicate BuddiesAgree(base: nat, off: nat, k: nat) {
    Xor(base + off, Pow2(MIN_ORDER + k)) == base + Xor(off, Pow2(MIN_ORDER + k))
  }

  ghost predicate AllBuddiesAgree(base: nat) {
    forall off: nat, k: nat :: k < TOP && off < REGION && off % Size(k) == 0 ==> BuddiesAgree(base, off, k)
  }

  /** The two agree when both have the same bit at the block's order. */
  lemma AgreeIffSameBit(base: nat, off: nat, k: nat)
    ensures BuddiesAgree(base, off, k) <==> ((base + off) / Size(k)) % 2 == (off / Size(k)) % 2
  {
    XorFlipsBit(base + off, MIN_ORDER + k);
    XorFlipsBit(off, MIN_ORDER + k);
    assert Size(k) == Pow2(MIN_ORDER + k);
    hide Pow2, Xor;
  }

  /** XOR on absolute addresses finds the buddy of every block of a region
      exactly when the bits 14 to 17 of its base are clear.  Page alignment
      alone, which is all the page source promises, does not give that. */
  lemma BuddiesAgreeIff(base: nat)
    ensures AllBuddiesAgree(base) <==> base % REGION < Size(0)
  {
    hide Xor, Buddy, BuddiesAgree;
    Pow2Values();
    if base % REGION < Size(0) {
      forall off: nat, k: nat | k < TOP && off < REGION && off % Size(k) == 0
        ensures BuddiesAgree(base, off, k)
      {
        SameBitIfClear(base, off, k);
        AgreeIffSameBit(base, off, k);
      }
    } else if AllBuddiesAgree(base) {
      forall k: nat | k < TOP
        ensures (base / Size(k)) % 2 == 0
      {
        assert 0 % Size(k) == 0;
        assert BuddiesAgree(base, 0, k);
        AgreeIffSameBit(base, 0, k);
      }
      ClearBits(base);
    }
  }

  lemma ClearBits(base: nat)
    requires forall k: nat :: k < TOP ==> (base / Size(k)) % 2 == 0
    ensures base % REGION < Size(0)
  {
    hide Pow2;
    Pow2Values();
    Quotients(base);
    Remainder(base);
    var q := base / 16384;
    assert base / Size(0) == q && base / Size(1) == q / 2 && base / Size(2) == q / 4 && base / Size(3) == q / 8;
  }

  lemma Quotients(x: nat)
    ensures x / 32768 == (x / 16384) / 2
    ensures x / 65536 == (x / 16384) / 4
    ensures x / 131072 == (x / 16384) / 8
  {
  }

  lemma Remainder(x: nat)
    ensures x % 262144 == 16384 * ((x / 16384) % 16) + x % 16384
  {
  }

  lemma SameBitIfClear(base: nat, off: nat, k: nat)
    requires base % REGION < Size(0) && k < TOP && off % Size(k) == 0
    ensures ((base + off) / Size(k)) % 2 == (off / Size(k)) % 2
  {
    hide Pow2;
    Pow2Values();
    Remainder(base);
    var p, s := base / REGION, Size(k);
    var d := if k == 0 then 16 else if k == 1 then 8 else if k == 2 then 4 else 2;
    assert REGION == d * s;
    SameBit(p, d, s, base % REGION, off);
  }

  /** A multiple of 2s and a part below s do not change the bit worth s. */
  lemma SameBit(p: nat, d: nat, s: nat, r: nat, off: nat)
    requires s >= 1 && r < s && off % s == 0 && d % 2 == 0
    ensures ((p * (d * s) + r + off) / s) % 2 == (off / s) % 2
  {
    DivMod(off, s);
    var q := p * d + off / s;
    assert p * (d * s) + off == q * s by { Distribute(p * d, off / s, s); Associate(p, d, s); }
    ModIs(q * s + r, s, q, r);
    assert p * d == 2 * (p * (d / 2)) by { Associate(p, d / 2, 2); }
  }

  lemma Associate(a: int, b: int, c: int)
    ensures a * (b * c) == (a * b) * c
  {
  }

  /** `coalesce` as it computes: the partner by exclusive or, and of the two the
      lower address.  It needs no alignment to run.  `fake` are the addresses inside
      blocks whose bytes read as the header of a free block of that class. */
  ghost function XorCoalesce(h: Heap, a: nat, k: nat, fake: set<(nat, nat)>): (h': Heap)
    requires k <= TOP && |h.lists| == NUM_ORDERS
    ensures |h'.lists| == NUM_ORDERS
    decreases TOP - k
  {
    var b := Xor(a, Pow2(MIN_ORDER + k));
    if k < TOP && h.base != 0 && h.base <= b < h.base + h.limit && ReadsFree(h, b, k, fake) then
      var p := if a < b then a else b;
      var merged := h.(lists := h.lists[k := Remove(h.lists[k], b)],
                       blocks := MergeBlocks(h.blocks, p, k),
                       live := h.live - {a} + {p});
      XorCoalesce(merged, p, k + 1, fake)
    else PutBack(h, a, k)
  }

  /** A block's own header is right; elsewhere the bytes decide. */
  predicate ReadsFree(h: Heap, b: nat, k: nat, fake: set<(nat, nat)>) {
    if b in h.blocks then IsFree(h, b, k) else (b, k) in fake
  }

  /** On aligned blocks it is the coalescing of the laws above. */
  lemma {:induction false} XorCoalesceIs(h: Heap, a: nat, k: nat)
    requires k <= TOP && |h.lists| == NUM_ORDERS && Aligned(a, k)
    ensures XorCoalesce(h, a, k, {}) == Coalesce(h, a, k)
    decreases TOP - k
  {
    hide Size, Floor, Buddy, Remove, Aligned, Xor, Pow2;
    XorIsBuddy(a, k);
    BuddyFacts(a, k);
    if CanMerge(h, a, k) {
      FloorFacts(a, k + 1);
      XorCoalesceIs(MergeOnce(h, a, k), Floor(a, k + 1), k + 1);
    }
  }

  /** Allocating any order from a new region at `r` and freeing it again leaves
      the region as it was new. */
  ghost predicate Recovers(r: nat) {
    forall k: nat :: k <= TOP ==> RecoversFrom(r, k)
  }

  ghost predicate RecoversFrom(r: nat, k: nat)
    requires k <= TOP
  {
    var whole := AddRegion(EMPTY, r, REGION);
    Find(whole.lists, k) < NUM_ORDERS
    && |AllocFrom(whole, k).lists| == NUM_ORDERS
    && XorCoalesce(AllocFrom(whole, k), r, k, {}) == whole
  }

  lemma NewRegionFacts(r: nat, k: nat)
    requires k <= TOP
    ensures var h := AddRegion(EMPTY, r, REGION);
            Find(h.lists, k) == TOP && h.lists[TOP] == [r] && h.base == r && h.limit == REGION
            && forall i :: 0 <= i < TOP ==> h.lists[i] == []
  {
    FindInNewRegion(EMPTY, r, k);
  }

  lemma AlignedRecovers(r: nat, k: nat)
    requires r > 0 && Aligned(r, TOP) && k <= TOP
    ensures RecoversFrom(r, k)
  {
    hide Size, Tiled, Maximal, Floor, AllocFrom, Find, XorCoalesce, Low;
    EmptyIsWellFormed();
    var h := AddRegion(EMPTY, r, REGION);
    AddRegionKeeps(EMPTY, r, REGION);
    NewRegionFacts(r, k);
    FreeUndoesAlloc(h, k);
    AlignedIs(r, TOP);
    XorCoalesceIs(AllocFrom(h, k), r, k);
  }

  lemma {:induction false} SplitDownLists(h: Heap, c: nat, from: nat, to: nat)
    requires to <= from <= |h.lists|
    ensures var h' := SplitDown(h, c, from, to); |h'.lists| == |h.lists| && h'.base == h.base && h'.limit == h.limit
    decreases from
  {
    hide Size;
    if to < from {
      SplitDownLists(SplitOnce(h, c, from - 1), c, from - 1, to);
    }
  }

  /** With bit k of the base set, the first block of that order finds its partner
      below the region and never merges. */
  lemma MisalignedDoesNot(r: nat, k: nat)
    requires r > 0 && k < TOP && (r / Size(k)) % 2 == 1
    ensures !RecoversFrom(r, k)
  {
    XorFlipsBit(r, MIN_ORDER + k);
    assert Pow2(MIN_ORDER + k) == Size(k);
    hide Size, Xor, Pow2, SplitDown, Find;
    var h := AddRegion(EMPTY, r, REGION);
    NewRegionFacts(r, k);
    var taken := Take(h, TOP);
    SplitDownLists(taken, r, TOP, k);
    var h' := AllocFrom(h, k);
    assert h' == SplitDown(taken, r, TOP, k);
    assert XorCoalesce(h', r, k, {}) == PutBack(h', r, k);
    assert XorCoalesce(h', r, k, {}).lists[k] == [r] + h'.lists[k];
  }

  /** A region recovers from every allocation and free, and its blocks find
      their buddies, if and only if bits 14 to 17 of its base are clear. */
  lemma RecoversIff(r: nat)
    requires r > 0
    ensures Recovers(r) <==> r % REGION < Size(0)
  {
    hide RecoversFrom, Size, Aligned;
    AlignedBase(r);
    if r % REGION < Size(0) {
      forall k: nat | k <= TOP
        ensures RecoversFrom(r, k)
      {
        AlignedRecovers(r, k);
      }
    } else {
      var k := SetBit(r);
      MisalignedDoesNot(r, k);
    }
  }

  lemma SetBit(r: nat) returns (k: nat)
    requires r % REGION >= Size(0)
    ensures k < TOP && (r / Size(k)) % 2 == 1
  {
    hide Size;
    if (r / Size(0)) % 2 == 1 {
      k := 0;
    } else if (r / Size(1)) % 2 == 1 {
      k := 1;
    } else if (r / Size(2)) % 2 == 1 {
      k := 2;
    } else {
      k := 3;
      if (r / Size(3)) % 2 == 0 {
        ClearBits(r);
      }
    }
  }

  /** The partner computed for a block lies in the region but is not its buddy. */
  ghost predicate Strays(r: nat, off: nat, k: nat) {
    var b := Xor(r + off, Pow2(MIN_ORDER + k));
    r <= b < r + REGION && b != r + Xor(off, Pow2(MIN_ORDER + k))
  }

  ghost predicate SomeStrays(r: nat) {
    exists off: nat, k: nat :: k < TOP && off < REGION && off % Size(k) == 0 && Strays(r, off, k)
  }

  /** `coalesce` can read a header that is not the buddy's if and only if one of
      the bits 14 to 16 of the base is set; with bit 17 alone, the halves of the
      region find their partners outside of it. */
  lemma StraysIff(r: nat)
    ensures SomeStrays(r) <==> r % Size(3) >= Size(0)
  {
    hide Size, Strays;
    if r % Size(3) >= Size(0) {
      var j := LowBit(r);
      StraysAt(r, j);
      assert Strays(r, 2 * Size(j), j);
    } else {
      forall off: nat, k: nat | k < TOP && off < REGION && off % Size(k) == 0
        ensures !Strays(r, off, k)
      {
        if k < 3 {
          ClearAgrees(r, off, k);
        } else {
          HalvesMissEachOther(r, off);
        }
      }
    }
  }

  lemma LowBit(r: nat) returns (j: nat)
    requires r % Size(3) >= Size(0)
    ensures j < 3 && (r / Size(j)) % 2 == 1
  {
    Pow2Values();
    hide Pow2;
    LowBitOf(r);
    j := if (r / Size(0)) % 2 == 1 then 0 else if (r / Size(1)) % 2 == 1 then 1 else 2;
  }

  lemma LowBitOf(x: nat)
    requires x % 131072 >= 16384
    ensures (x / 16384) % 2 == 1 || (x / 32768) % 2 == 1 || (x / 65536) % 2 == 1
  {
    Quotients(x);
    RemainderBelow(x);
    BitBelowEight(x / 16384);
  }

  lemma BitBelowEight(q: nat)
    requires q % 8 >= 1
    ensures q % 2 == 1 || (q / 2) % 2 == 1 || (q / 4) % 2 == 1
  {
    var d, m := q / 8, q % 8;
    assert q == 8 * d + m;
    if m == 1 || m == 3 || m == 5 || m == 7 {
      ModIs(q, 2, 4 * d + m / 2, 1);
    } else if m == 2 || m == 6 {
      ModIs(q, 2, 4 * d + m / 2, 0);
      ModIs(q / 2, 2, 2 * d + m / 4, 1);
    } else {
      ModIs(q, 4, 2 * d + 1, 0);
      ModIs(q / 4, 2, d, 1);
    }
  }

  lemma RemainderBelow(x: nat)
    ensures x % 131072 == 16384 * ((x / 16384) % 8) + x % 16384
  {
  }

  /** With bit j of the base set, the block two sizes in strays to the one before. */
  lemma StraysAt(r: nat, j: nat)
    requires j < 3 && (r / Size(j)) % 2 == 1
    ensures 2 * Size(j) < REGION && (2 * Size(j)) % Size(j) == 0
    ensures Xor(r + 2 * Size(j), Size(j)) == r + Size(j) && Strays(r, 2 * Size(j), j)
  {
    hide Xor, Pow2, Size;
    var s := Size(j);
    XorFlipsBit(r + 2 * s, MIN_ORDER + j);
    XorFlipsBit(2 * s, MIN_ORDER + j);
    SizeAtLeast(j);
    TwoFurther(r, s);
  }

  /** Two sizes further the bit is the same. */
  lemma TwoFurther(r: nat, s: nat)
    requires s >= 1
    ensures ((r + 2 * s) / s) % 2 == (r / s) % 2 && (2 * s) % s == 0 && (2 * s / s) % 2 == 0
  {
    DivMod(r, s);
    Distribute(r / s, 2, s);
    ModIs(r + 2 * s, s, r / s + 2, r % s);
    ModIs(2 * s, s, 2, 0);
  }

  lemma ClearAgrees(r: nat, off: nat, k: nat)
    requires r % Size(3) < Size(0) && k < 3 && off % Size(k) == 0
    ensures !Strays(r, off, k)
  {
    hide Pow2, Xor;
    Pow2Values();
    RemainderBelow(r);
    var p, s := r / Size(3), Size(k);
    var d := if k == 0 then 8 else if k == 1 then 4 else 2;
    assert Size(3) == d * s;
    SameBit(p, d, s, r % Size(3), off);
    AgreeIffSameBit(r, off, k);
  }

  lemma HalvesMissEachOther(r: nat, off: nat)
    requires r % Size(3) < Size(0) && off < REGION && off % Size(3) == 0
    ensures !Strays(r, off, 3)
  {
    XorFlipsBit(r + off, MIN_ORDER + 3);
    XorFlipsBit(off, MIN_ORDER + 3);
    Pow2Values();
    hide Pow2, Xor;
    HalfBits(r, off);
  }

  lemma HalfBits(r: nat, off: nat)
    requires off < 262144 && off % 131072 == 0
    ensures off == 0 || off == 131072
    ensures off == 131072 ==> ((r + off) / 131072) % 2 != (r / 131072) % 2 && (off / 131072) % 2 == 1
    ensures off == 0 ==> (off / 131072) % 2 == 0
  {
  }

  /** Serve class `k` from the free lists. */
  ghost function Served(h: Heap, k: nat): Heap {
    if |h.lists| == NUM_ORDERS && k <= TOP && Find(h.lists, k) < NUM_ORDERS then AllocFrom(h, k) else h
  }

  /** What halving a block leaves. */
  lemma {:induction false} SplitDownFacts(h: Heap, c: nat, from: nat, to: nat)
    requires to <= from < |h.lists| && c in h.blocks && h.blocks[c] == from
             && forall i :: 0 <= i < from ==> h.lists[i] == []
    ensures var h' := SplitDown(h, c, from, to);
            && |h'.lists| == |h.lists|
            && (forall i :: 0 <= i < |h.lists| ==>
                h'.lists[i] == if to <= i < from then [c + Size(i)] else h.lists[i])
            && c in h'.blocks && h'.blocks[c] == to
            && (forall x :: x in h'.blocks ==> x in h.blocks || x >= c + Size(to))
            && h' == h.(lists := h'.lists, blocks := h'.blocks)
    decreases from
  {
    if to < from {
      var h1 := SplitOnce(h, c, from - 1);
      FirstSplit(h, c, from - 1);
      SizesGrow(to, from - 1);
      hide Size;
      SplitDownFacts(h1, c, from - 1, to);
    }
  }

  /** A block of class j + 1 from a new region. */
  lemma FirstBlock(r: nat, j: nat)
    requires j < 3
    ensures var h := Served(AddRegion(EMPTY, r, REGION), j + 1);
            && |h.lists| == NUM_ORDERS && h.base == r && h.limit == REGION && h.live == {r}
            && h.lists[j] == [] && h.lists[j + 1] == [r + Size(j + 1)] && r in h.blocks && h.blocks[r] == j + 1
            && forall x :: x in h.blocks ==> x == r || x >= r + Size(j + 1)
  {
    hide Size, Find, SplitDown;
    var h0 := AddRegion(EMPTY, r, REGION);
    NewRegionFacts(r, j + 1);
    var taken := Take(h0, TOP);
    SplitDownFacts(taken, r, TOP, j + 1);
  }

  /** A new region that served a block of class j + 1 and one of class j. */
  ghost function ServedTwo(r: nat, j: nat): Heap {
    Served(Served(AddRegion(EMPTY, r, REGION), j + 1), j)
  }

  /** The block at `a`, of class `k`, is in use. */
  predicate InUse(h: Heap, a: nat, k: nat) { IsLive(h, a) && h.blocks[a] == k }

  /** Blocks of class j + 1 at `r` and of class j after it are in use, and the
      other half of the latter is free. */
  ghost predicate HasTwo(h: Heap, r: nat, j: nat) {
    var s := Size(j);
    && j < 3 && |h.lists| == NUM_ORDERS && h.base == r && h.limit == REGION && h.lists[j + 1] == []
    && InUse(h, r, j + 1) && InUse(h, r + 2 * s, j) && IsFree(h, r + 3 * s, j) && r + s !in h.blocks
  }

  lemma TwoBlocks(r: nat, j: nat)
    requires j < 3
    ensures HasTwo(ServedTwo(r, j), r, j)
  {
    hide Size, Find, Served, AddRegion, SplitBlocks;
    FirstBlock(r, j);
    ThenSecond(Served(AddRegion(EMPTY, r, REGION), j + 1), r, j);
  }

  lemma ThenSecond(h1: Heap, r: nat, j: nat)
    requires j < 3 && |h1.lists| == NUM_ORDERS && h1.base == r && h1.limit == REGION && h1.live == {r}
    requires h1.lists[j] == [] && h1.lists[j + 1] == [r + Size(j + 1)] && r in h1.blocks && h1.blocks[r] == j + 1
    requires forall x :: x in h1.blocks ==> x == r || x >= r + Size(j + 1)
    ensures HasTwo(Served(h1, j), r, j)
  {
    hide Size, Find, Served, SplitBlocks;
    SizeDoubles(j);
    FindOneUp(h1.lists, j);
    SecondBlock(h1, r + 2 * Size(j), j);
    SplitFacts(h1.blocks, r, j);
  }

  lemma SplitFacts(blocks: map<nat, nat>, r: nat, j: nat)
    requires r in blocks && blocks[r] == j + 1 && forall x :: x in blocks ==> x == r || x >= r + Size(j + 1)
    ensures var b, s := SplitBlocks(blocks, r + 2 * Size(j), j), Size(j);
            && r in b && b[r] == j + 1 && r + 2 * s in b && b[r + 2 * s] == j && r + 3 * s in b && b[r + 3 * s] == j
            && r + s !in b
  {
    hide Size;
    SizeDoubles(j);
  }

  lemma FindOneUp(lists: seq<seq<nat>>, j: nat)
    requires |lists| == NUM_ORDERS && j < TOP && lists[j] == [] && lists[j + 1] != []
    ensures Find(lists, j) == j + 1
  {
  }

  lemma SecondBlock(h: Heap, c: nat, j: nat)
    requires |h.lists| == NUM_ORDERS && j < 3 && h.lists[j] == [] && h.lists[j + 1] == [c] && Find(h.lists, j) == j + 1
    ensures var h' := Served(h, j);
            h' == h.(lists := h.lists[j + 1 := []][j := [c + Size(j)]], live := h.live + {c},
                     blocks := SplitBlocks(h.blocks, c, j))
  {
    hide Size, Find;
    var taken := Take(h, j + 1);
    assert [c][1..] == [];
    FirstSplit(taken, c, j);
    assert SplitDown(taken, c, j + 1, j) == SplitDown(SplitOnce(taken, c, j), c, j, j) == SplitOnce(taken, c, j);
  }

  /** At such a base two allocations and a free do it: the partner computed for the
      second block is in the middle of the first, which is in use, and `coalesce`
      takes the user's bytes there for a header.  If they read as that of a free
      block of the class, half of the block in use goes on a free list. */
  lemma FreeMergesIntoLive(r: nat, j: nat)
    requires r > 0 && j < 3 && (r / Size(j)) % 2 == 1
    ensures var h, s, b := ServedTwo(r, j), Size(j), r + Size(j);
            && InUse(h, r, j + 1) && InUse(h, r + 2 * s, j)
            && Xor(r + 2 * s, s) == b && r + HEADER_SIZE <= b && b + HEADER_SIZE <= r + 2 * s && b !in h.blocks
            && ListAfter(h, r + 2 * s, j, {}, j + 1) == []
            && ListAfter(h, r + 2 * s, j, {(b, j)}, j + 1) == [b]
  {
    hide ServedTwo, Pow2, Xor, Remove, Size, XorCoalesce, PutBack, Strays;
    var h := ServedTwo(r, j);
    TwoBlocks(r, j);
    StraysAt(r, j);
    SizeAtLeast(j);
    NextPartner(r, j);
    MergesOnce(h, r, j);
    StaysApart(h, r, j);
  }

  /** Free list `i` after the block at `a`, of class `k`, is freed. */
  ghost function ListAfter(h: Heap, a: nat, k: nat, fake: set<(nat, nat)>, i: nat): seq<nat> {
    if k <= TOP && |h.lists| == NUM_ORDERS && i < NUM_ORDERS then XorCoalesce(h, a, k, fake).lists[i] else []
  }

  lemma SizeAtLeast(j: nat)
    requires j < 3
    ensures Size(j) == Pow2(MIN_ORDER + j) && 2 * HEADER_SIZE <= Size(j) && 3 * Size(j) < REGION
  {
    Pow2Values();
  }

  lemma NextPartner(r: nat, j: nat)
    ensures var b, s := Xor(r + Size(j), Pow2(MIN_ORDER + j + 1)), Size(j); b == r + 3 * s || b < r
  {
    XorFlipsBit(r + Size(j), MIN_ORDER + j + 1);
    SizeDoubles(j);
    assert Size(j + 1) == Pow2(MIN_ORDER + j + 1);
    hide Pow2, Xor, Size;
  }

  lemma StaysApart(h: Heap, r: nat, j: nat)
    requires HasTwo(h, r, j) && Xor(r + 2 * Size(j), Pow2(MIN_ORDER + j)) == r + Size(j)
    ensures ListAfter(h, r + 2 * Size(j), j, {}, j + 1) == []
  {
    hide Size, Xor, Pow2, Remove, MergeBlocks, IsFree, InUse;
    var a := r + 2 * Size(j);
    assert !ReadsFree(h, r + Size(j), j, {});
    hide ReadsFree;
    assert XorCoalesce(h, a, j, {}) == PutBack(h, a, j);
  }

  lemma MergesOnce(h: Heap, r: nat, j: nat)
    requires HasTwo(h, r, j) && r > 0 && Size(j) < REGION
    requires Xor(r + 2 * Size(j), Pow2(MIN_ORDER + j)) == r + Size(j)
    requires var b, s := Xor(r + Size(j), Pow2(MIN_ORDER + j + 1)), Size(j); b == r + 3 * s || b < r
    ensures ListAfter(h, r + 2 * Size(j), j, {(r + Size(j), j)}, j + 1) == [r + Size(j)]
  {
    hide Size, Xor, Pow2, Remove;
    var s, fake := Size(j), {(r + Size(j), j)};
    var b := r + s;
    var merged := h.(lists := h.lists[j := Remove(h.lists[j], b)],
                     blocks := MergeBlocks(h.blocks, b, j),
                     live := h.live - {r + 2 * s} + {b});
    assert XorCoalesce(h, r + 2 * s, j, fake) == XorCoalesce(merged, b, j + 1, fake);
    assert !ReadsFree(merged, r + 3 * s, j + 1, fake);
    assert XorCoalesce(merged, b, j + 1, fake) == PutBack(merged, b, j + 1);
    assert [b] + [] == [b];
  }

  /** A page-aligned region base with which the wrong blocks are paired. */
  lemma PageAlignmentIsNotEnough()
    ensures var base := 0x7f0000004000;
            base % 4096 == 0 && !AllBuddiesAgree(base)
  {
    BuddiesAgreeIff(0x7f0000004000);
    Pow2Values();
  }
}
