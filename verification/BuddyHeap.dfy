/** The buddy allocator's operations on its abstract state: each step of the
    split and coalesce loops keeps the invariant, the loops undo each other, and
    a region without allocations is one block again. */
module BuddyHeap {
  import opened Common
  import opened BuddySpec

  /** `lists[k]` is the free list of size class `k`, first element first; `live`
      are the blocks that are allocated or being worked on; `base` is the current
      region, 0 before the first, and `limit` its size. */
  datatype Heap = Heap(
    lists: seq<seq<nat>>,
    blocks: map<nat, nat>,
    live: set<nat>,
    regions: set<nat>,
    base: nat,
    limit: nat)

  const EMPTY := Heap([[], [], [], [], []], map[], {}, {}, 0, 0)

  predicate IsFree(h: Heap, a: nat, k: nat) {
    a in h.blocks && h.blocks[a] == k && a !in h.live
  }

  predicate IsLive(h: Heap, a: nat) {
    a in h.blocks && a in h.live
  }

  /** Every free block is in exactly one list, that of its size class, once. */
  ghost predicate ListsOk(h: Heap) {
    && |h.lists| == NUM_ORDERS
    && (forall k :: 0 <= k < NUM_ORDERS ==> Distinct(h.lists[k]))
    && (forall k, a: nat :: 0 <= k < NUM_ORDERS ==> (a in h.lists[k] <==> IsFree(h, a, k)))
    && (forall a :: a in h.live ==> a in h.blocks)
  }

  /** Regions are disjoint, with bits 14 to 17 of their bases clear; the current
      one, of `limit` bytes, is apart from all others. */
  ghost predicate RegionsOk(h: Heap) {
    && (forall r :: r in h.regions ==> r > 0 && Aligned(r, TOP))
    && (h.base == 0 ==> h.regions == {})
    && (h.base != 0 ==> h.base in h.regions && h.limit >= REGION)
    && (forall r :: r in h.regions && r != h.base ==> r + REGION <= h.base || h.base + h.limit <= r)
    && (forall q, r :: q in h.regions && r in h.regions && q < r ==> q + REGION <= r)
  }

  /** In the current region no two buddies of equal size are both free. */
  ghost predicate Maximal(h: Heap) {
    forall a: nat, k: nat :: k < TOP && IsFree(h, a, k) && Chunk(a) == h.base && Aligned(a, k) ==>
        !IsFree(h, Buddy(a, k), k)
  }

  ghost predicate WellFormed(h: Heap) {
    Tiled(h.blocks, h.regions) && ListsOk(h) && RegionsOk(h) && Maximal(h)
  }

  // ------------------------------------------------------------------
  // Steps
  // ------------------------------------------------------------------

  /** Take the first block of list `k`. */
  function Take(h: Heap, k: nat): Heap
    requires k < |h.lists| && h.lists[k] != []
  {
    h.(lists := h.lists[k := h.lists[k][1..]], live := h.live + {h.lists[k][0]})
  }

  /** Halve the block at `c`, of size class k + 1, and free its upper half. */
  function SplitOnce(h: Heap, c: nat, k: nat): Heap
    requires k < |h.lists|
  {
    h.(lists := h.lists[k := [c + Size(k)] + h.lists[k]], blocks := SplitBlocks(h.blocks, c, k))
  }

  /** `split`: halve until size class `to`. */
  function SplitDown(h: Heap, c: nat, from: nat, to: nat): Heap
    requires to <= from <= |h.lists|
    decreases from
  {
    if from == to then h else SplitDown(SplitOnce(h, c, from - 1), c, from - 1, to)
  }

  /** The list without `b`, as `remove_from_free_list` leaves it. */
  function Remove(list: seq<nat>, b: nat): seq<nat> {
    if list == [] then [] else if list[0] == b then list[1..] else [list[0]] + Remove(list[1..], b)
  }

  /** The loop test of `coalesce`: the buddy lies in the current region and is
      free and of the same size. */
  predicate CanMerge(h: Heap, a: nat, k: nat)
    requires Aligned(a, k)
  {
    k < TOP && h.base != 0 && h.base <= Buddy(a, k) < h.base + h.limit && IsFree(h, Buddy(a, k), k)
  }

  /** Merge the block at `a` with its free buddy. */
  function MergeOnce(h: Heap, a: nat, k: nat): Heap
    requires k < |h.lists| && Aligned(a, k)
  {
    var p := Floor(a, k + 1);
    h.(lists := h.lists[k := Remove(h.lists[k], Buddy(a, k))],
       blocks := MergeBlocks(h.blocks, p, k),
       live := h.live - {a} + {p})
  }

  /** Put a block on its free list. */
  function PutBack(h: Heap, a: nat, k: nat): Heap
    requires k < |h.lists|
  {
    h.(lists := h.lists[k := [a] + h.lists[k]], live := h.live - {a})
  }

  /** `coalesce`. */
  ghost function Coalesce(h: Heap, a: nat, k: nat): Heap
    requires k <= TOP && |h.lists| == NUM_ORDERS && Aligned(a, k)
    decreases TOP - k
  {
    if CanMerge(h, a, k) then
      FloorFacts(a, k + 1);
      Coalesce(MergeOnce(h, a, k), Floor(a, k + 1), k + 1)
    else PutBack(h, a, k)
  }

  /** The first nonempty list at or above `k`, or NUM_ORDERS. */
  function Find(lists: seq<seq<nat>>, k: nat): (j: nat)
    requires |lists| == NUM_ORDERS && k <= NUM_ORDERS
    ensures k <= j <= NUM_ORDERS
    ensures j < NUM_ORDERS ==> lists[j] != []
    ensures forall i :: k <= i < j ==> lists[i] == []
    decreases NUM_ORDERS - k
  {
    if k == NUM_ORDERS || lists[k] != [] then k else Find(lists, k + 1)
  }

  /** `alloc` from the free lists: take the first block big enough, split it. */
  function AllocFrom(h: Heap, k: nat): Heap
    requires |h.lists| == NUM_ORDERS && k <= TOP && Find(h.lists, k) < NUM_ORDERS
  {
    var j := Find(h.lists, k);
    SplitDown(Take(h, j), h.lists[j][0], j, k)
  }

  /** `init`: a new current region, one free block of the top size. */
  function AddRegion(h: Heap, r: nat, size: nat): Heap
    requires |h.lists| == NUM_ORDERS
  {
    h.(lists := h.lists[TOP := [r]], blocks := h.blocks[r := TOP], regions := h.regions + {r}, base := r, limit := size)
  }

  // ------------------------------------------------------------------
  // Lists
  // ------------------------------------------------------------------

  lemma {:induction false} RemoveFacts(list: seq<nat>, b: nat)
    requires Distinct(list)
    ensures Distinct(Remove(list, b))
    ensures forall x :: x in Remove(list, b) <==> x in list && x != b
    decreases |list|
  {
    if list != [] {
      var rest := list[1..];
      assert list == [list[0]] + rest;
      assert forall i :: 0 <= i < |rest| ==> rest[i] == list[i + 1];
      assert list[0] !in rest;
      RemoveFacts(rest, b);
      if list[0] != b {
        ConsDistinct(list[0], Remove(rest, b));
      }
    }
  }

  lemma ConsDistinct(x: nat, y: seq<nat>)
    requires Distinct(y) && x !in y
    ensures Distinct([x] + y)
    ensures forall b :: b in [x] + y <==> b == x || b in y
  {
    var z := [x] + y;
    forall i, j | 0 <= i < j < |z|
      ensures z[i] != z[j]
    {
      assert z[j] == y[j - 1] && z[j] in y;
    }
  }

  lemma TailDistinct(x: seq<nat>)
    requires Distinct(x) && x != []
    ensures Distinct(x[1..])
    ensures forall b :: b in x[1..] <==> b in x && b != x[0]
  {
    assert x == [x[0]] + x[1..];
    assert forall i :: 0 <= i < |x[1..]| ==> x[1..][i] == x[i + 1];
  }

  // ------------------------------------------------------------------
  // Each step keeps the invariant
  // ------------------------------------------------------------------

  lemma TakeKeeps(h: Heap, k: nat)
    requires WellFormed(h) && k <= TOP && h.lists[k] != []
    ensures WellFormed(Take(h, k))
    ensures var c := h.lists[k][0];
            IsFree(h, c, k) && IsLive(Take(h, k), c) && Take(h, k).blocks[c] == k
  {
    hide Size, Tiled, Floor, Chunk, Buddy;
    var c := h.lists[k][0];
    assert c in h.lists[k];
    TailDistinct(h.lists[k]);
    var h' := Take(h, k);
    forall j, a | 0 <= j < NUM_ORDERS
      ensures a in h'.lists[j] <==> IsFree(h', a, j)
    {
      assert a in h.lists[j] <==> IsFree(h, a, j);
    }
  }

  lemma SplitKeepsLists(h: Heap, c: nat, k: nat)
    requires Tiled(h.blocks, h.regions) && ListsOk(h) && IsLive(h, c) && h.blocks[c] == k + 1 && k < TOP
    ensures ListsOk(SplitOnce(h, c, k))
  {
    hide Size, Tiled;
    UpperHalfIsNoBlock(h.blocks, h.regions, c, k);
    var h', b := SplitOnce(h, c, k), c + Size(k);
    assert b !in h.lists[k];
    ConsDistinct(b, h.lists[k]);
    forall j, a | 0 <= j < NUM_ORDERS
      ensures a in h'.lists[j] <==> IsFree(h', a, j)
    {
      assert a in h.lists[j] <==> IsFree(h, a, j);
    }
  }

  /** What a split frees. */
  lemma SplitFrees(h: Heap, c: nat, k: nat, a: nat, i: nat)
    requires k < |h.lists| && IsLive(h, c) && c + Size(k) !in h.blocks && (forall x :: x in h.live ==> x in h.blocks)
    ensures IsFree(SplitOnce(h, c, k), a, i) <==> IsFree(h, a, i) || (a == c + Size(k) && i == k)
  {
    hide Size;
  }

  lemma SplitKeepsMaximal(h: Heap, c: nat, k: nat)
    requires Tiled(h.blocks, h.regions) && Maximal(h) && IsLive(h, c) && h.blocks[c] == k + 1 && k < TOP
    requires |h.lists| == NUM_ORDERS && (forall x :: x in h.live ==> x in h.blocks)
    ensures Maximal(SplitOnce(h, c, k))
  {
    hide Size, Tiled, Floor, Buddy, IsFree, Chunk, SplitBlocks;
    UpperHalfIsNoBlock(h.blocks, h.regions, c, k);
    var h', b := SplitOnce(h, c, k), c + Size(k);
    OkBlock(h.blocks, h.regions, c);
    SplitBuddy(c, k);
    assert !IsFree(h, c, k) by { LiveNotFree(h, c, k); }
    assert !IsFree(h', c, k) by { SplitFrees(h, c, k, c, k); }
    forall a: nat, i: nat | i < TOP && IsFree(h', a, i) && Chunk(a) == h'.base && Aligned(a, i)
      ensures !IsFree(h', Buddy(a, i), i)
    {
      BuddyFacts(a, i);
      SplitFrees(h, c, k, a, i);
      SplitFrees(h, c, k, Buddy(a, i), i);
    }
  }

  lemma LiveNotFree(h: Heap, a: nat, k: nat)
    requires a in h.live
    ensures !IsFree(h, a, k)
  {
  }

  /** The two halves of a block are buddies. */
  lemma SplitBuddy(c: nat, k: nat)
    requires Aligned(c, k + 1)
    ensures Aligned(c, k) && Aligned(c + Size(k), k)
    ensures Floor(c, k + 1) == c && Buddy(c, k) == c + Size(k) && Buddy(c + Size(k), k) == c
  {
    hide Size, Floor;
    AlignedIs(c, k + 1);
    AlignedDown(c, k, k + 1);
    BuddyFacts(c, k);
  }

  lemma SplitKeeps(h: Heap, c: nat, k: nat)
    requires WellFormed(h) && IsLive(h, c) && h.blocks[c] == k + 1 && k < TOP
    ensures WellFormed(SplitOnce(h, c, k))
    ensures IsLive(SplitOnce(h, c, k), c) && SplitOnce(h, c, k).blocks[c] == k
  {
    hide Size, Tiled, Maximal, Floor, Chunk;
    SplitKeepsTiled(h.blocks, h.regions, c, k);
    SplitKeepsLists(h, c, k);
    SplitKeepsMaximal(h, c, k);
    hide ListsOk;
  }

  /** A block whose buddy lies in the managed range is in the current region. */
  lemma MergeInRegion(h: Heap, a: nat, k: nat)
    requires Tiled(h.blocks, h.regions) && RegionsOk(h) && a in h.blocks && h.blocks[a] == k && k < TOP
    ensures Aligned(a, k)
    ensures h.base != 0 && h.base <= Buddy(a, k) < h.base + h.limit <==> Chunk(a) == h.base
  {
    hide Size, Tiled, Buddy, Floor;
    OkBlock(h.blocks, h.regions, a);
    BuddyIsBlock(h.blocks, h.regions, a, k);
    RegionSize();
    FloorFacts(Buddy(a, k), TOP);
    assert Chunk(a) in h.regions;
  }

  lemma MergeFrees(h: Heap, a: nat, k: nat, x: nat, i: nat)
    requires k < |h.lists| && Aligned(a, k) && IsLive(h, a) && h.blocks[a] == k && IsFree(h, Buddy(a, k), k)
    ensures IsFree(MergeOnce(h, a, k), x, i) <==> IsFree(h, x, i) && x != Buddy(a, k)
  {
    BuddyFacts(a, k);
    hide Size, Floor, Buddy;
  }

  lemma MergeKeepsLists(h: Heap, a: nat, k: nat)
    requires ListsOk(h) && IsLive(h, a) && h.blocks[a] == k && k < TOP && Aligned(a, k)
    requires IsFree(h, Buddy(a, k), k)
    ensures ListsOk(MergeOnce(h, a, k))
  {
    hide Size, Floor, Buddy, Remove, IsFree;
    var b := Buddy(a, k);
    RemoveFacts(h.lists[k], b);
    var h' := MergeOnce(h, a, k);
    forall j, x: nat | 0 <= j < NUM_ORDERS
      ensures x in h'.lists[j] <==> IsFree(h', x, j)
    {
      assert x in h.lists[j] <==> IsFree(h, x, j);
      MergeFrees(h, a, k, x, j);
      if x == b && IsFree(h, x, j) { FreeOrder(h, x, j, k); }
    }
    assert forall x :: x in h'.live ==> x in h'.blocks by { MergeLive(h, a, k); }
  }

  lemma FreeOrder(h: Heap, x: nat, j: nat, k: nat)
    requires IsFree(h, x, j) && IsFree(h, x, k)
    ensures j == k
  {
  }

  lemma MergeLive(h: Heap, a: nat, k: nat)
    requires k < |h.lists| && Aligned(a, k) && IsFree(h, Buddy(a, k), k) && (forall x :: x in h.live ==> x in h.blocks)
    ensures forall x :: x in MergeOnce(h, a, k).live ==> x in MergeOnce(h, a, k).blocks
    ensures Floor(a, k + 1) in MergeOnce(h, a, k).live
  {
    hide Size, Floor, Buddy;
    BuddyFacts(a, k);
  }

  lemma MergeKeepsMaximal(h: Heap, a: nat, k: nat)
    requires Maximal(h) && IsLive(h, a) && h.blocks[a] == k && k < TOP && Aligned(a, k)
    requires |h.lists| == NUM_ORDERS && IsFree(h, Buddy(a, k), k)
    ensures Maximal(MergeOnce(h, a, k))
  {
    hide Size, Floor, Buddy, IsFree, Chunk;
    var h' := MergeOnce(h, a, k);
    assert h'.base == h.base;
    forall x: nat, i: nat
      ensures IsFree(h', x, i) ==> IsFree(h, x, i)
    {
      MergeFrees(h, a, k, x, i);
    }
  }

  lemma MergeKeepsTiling(h: Heap, a: nat, k: nat)
    requires Tiled(h.blocks, h.regions) && a in h.blocks && h.blocks[a] == k && k < TOP && Aligned(a, k)
    requires |h.lists| == NUM_ORDERS && IsFree(h, Buddy(a, k), k)
    ensures Tiled(MergeOnce(h, a, k).blocks, h.regions)
  {
    hide Size, Floor, Tiled, Buddy;
    BuddyFacts(a, k);
    FloorFacts(a, k + 1);
    MergeKeepsTiled(h.blocks, h.regions, Floor(a, k + 1), k);
  }

  lemma MergeKeeps(h: Heap, a: nat, k: nat)
    requires WellFormed(h) && IsLive(h, a) && h.blocks[a] == k && Aligned(a, k) && CanMerge(h, a, k)
    ensures var h', p := MergeOnce(h, a, k), Floor(a, k + 1);
            WellFormed(h') && IsLive(h', p) && h'.blocks[p] == k + 1 && Chunk(p) == Chunk(a)
  {
    hide Size, Tiled, Maximal, Floor, Buddy, IsFree, Remove;
    MergeKeepsTiling(h, a, k);
    MergeKeepsLists(h, a, k);
    MergeKeepsMaximal(h, a, k);
    MergeLive(h, a, k);
    FloorNested(a, k + 1, TOP);
    hide ListsOk;
  }

  lemma PutBackFrees(h: Heap, a: nat, k: nat, x: nat, i: nat)
    requires k < |h.lists| && IsLive(h, a) && h.blocks[a] == k
    ensures IsFree(PutBack(h, a, k), x, i) <==> IsFree(h, x, i) || (x == a && i == k)
  {
  }

  lemma PutBackKeepsLists(h: Heap, a: nat, k: nat)
    requires ListsOk(h) && IsLive(h, a) && h.blocks[a] == k && k <= TOP
    ensures ListsOk(PutBack(h, a, k))
  {
    hide IsFree;
    var h' := PutBack(h, a, k);
    LiveNotFree(h, a, k);
    assert a !in h.lists[k];
    ConsDistinct(a, h.lists[k]);
    forall j, x: nat | 0 <= j < NUM_ORDERS
      ensures x in h'.lists[j] <==> IsFree(h', x, j)
    {
      assert x in h.lists[j] <==> IsFree(h, x, j);
      PutBackFrees(h, a, k, x, j);
    }
  }

  lemma PutBackKeepsMaximal(h: Heap, a: nat, k: nat)
    requires Maximal(h) && IsLive(h, a) && h.blocks[a] == k && k <= TOP && Aligned(a, k)
    requires |h.lists| == NUM_ORDERS && (Chunk(a) == h.base && k < TOP ==> !IsFree(h, Buddy(a, k), k))
    ensures Maximal(PutBack(h, a, k))
  {
    hide Size, Floor, Buddy, IsFree, Chunk;
    var h' := PutBack(h, a, k);
    forall x: nat, i: nat | i < TOP && IsFree(h', x, i) && Chunk(x) == h'.base && Aligned(x, i)
      ensures !IsFree(h', Buddy(x, i), i)
    {
      BuddyFacts(x, i);
      BuddyChunk(x, i);
      PutBackFrees(h, a, k, x, i);
      PutBackFrees(h, a, k, Buddy(x, i), i);
    }
  }

  lemma BuddyChunk(x: nat, i: nat)
    requires i < TOP && Aligned(x, i)
    ensures Chunk(Buddy(x, i)) == Chunk(x)
  {
    hide Size, Floor, Buddy;
    BuddyFacts(x, i);
    FloorNested(x, i + 1, TOP);
    FloorNested(Buddy(x, i), i + 1, TOP);
  }

  lemma PutBackKeeps(h: Heap, a: nat, k: nat)
    requires WellFormed(h) && IsLive(h, a) && h.blocks[a] == k && Aligned(a, k) && !CanMerge(h, a, k)
    ensures WellFormed(PutBack(h, a, k))
  {
    hide Tiled, Maximal, Size, Floor, Buddy, IsFree, Chunk;
    OkBlock(h.blocks, h.regions, a);
    if k < TOP {
      MergeInRegion(h, a, k);
    }
    PutBackKeepsLists(h, a, k);
    PutBackKeepsMaximal(h, a, k);
    hide ListsOk;
  }

  lemma AddRegionFrees(h: Heap, r: nat, size: nat, a: nat, i: nat)
    requires |h.lists| == NUM_ORDERS && r !in h.blocks && r !in h.live
    ensures IsFree(AddRegion(h, r, size), a, i) <==> IsFree(h, a, i) || (a == r && i == TOP)
  {
  }

  lemma AddRegionKeepsLists(h: Heap, r: nat, size: nat)
    requires ListsOk(h) && h.lists[TOP] == [] && r !in h.blocks
    ensures ListsOk(AddRegion(h, r, size))
  {
    hide IsFree;
    var h' := AddRegion(h, r, size);
    forall j, a: nat | 0 <= j < NUM_ORDERS
      ensures a in h'.lists[j] <==> IsFree(h', a, j)
    {
      assert a in h.lists[j] <==> IsFree(h, a, j);
      AddRegionFrees(h, r, size, a, j);
    }
  }

  /** Nothing but the top block is free in the new region. */
  lemma AddRegionKeepsMaximal(h: Heap, r: nat, size: nat)
    requires Tiled(h.blocks, h.regions) && |h.lists| == NUM_ORDERS
    requires r !in h.blocks && r !in h.live && r !in h.regions
    ensures Maximal(AddRegion(h, r, size))
  {
    hide Size, Floor, Buddy, Tiled, Chunk;
    var h' := AddRegion(h, r, size);
    forall a: nat, k: nat | k < TOP && IsFree(h', a, k)
      ensures Chunk(a) != r
    {
      OkBlock(h.blocks, h.regions, a);
    }
  }

  lemma AddRegionKeeps(h: Heap, r: nat, size: nat)
    requires WellFormed(h) && h.lists[TOP] == []
    requires r > 0 && Aligned(r, TOP) && size >= REGION
    requires forall q :: q in h.regions ==> q + REGION <= r || r + size <= q
    ensures WellFormed(AddRegion(h, r, size))
  {
    hide Size, Tiled, Maximal, IsFree, Floor, Chunk;
    assert r !in h.regions;
    RegionIsNoBlock(h, r);
    assert r !in h.live;
    AddRegionKeepsTiled(h.blocks, h.regions, r);
    AddRegionKeepsLists(h, r, size);
    AddRegionKeepsMaximal(h, r, size);
    hide ListsOk;
  }

  lemma RegionIsNoBlock(h: Heap, r: nat)
    requires Tiled(h.blocks, h.regions) && Aligned(r, TOP) && r !in h.regions
    ensures r !in h.blocks
  {
    hide Size, Floor, Tiled;
    FloorIs(r, TOP, r);
    if r in h.blocks {
      OkBlock(h.blocks, h.regions, r);
    }
  }
}
