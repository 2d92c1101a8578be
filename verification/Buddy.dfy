/** The buddy allocator itself: five intrusive free lists over block headers in
    memory, with its split, coalesce and unlink loops. */
module Buddy {
  import opened Bits
  import opened Common
  import opened BuddySpec
  import opened BuddyHeap
  import opened BuddyLaws
  import opened BuddyMemory
  import Lists = LinkedLists

  /** List index of a request, if its order is in range. */
  function ClassOf(size: nat): Option<nat> {
    var order := TrailingZeros(size);
    if MIN_ORDER <= order <= MAX_ORDER then Some(order - MIN_ORDER) else None
  }

  lemma ClassOfSize(k: nat)
    requires k <= TOP
    ensures ClassOf(Pow2(MIN_ORDER + k)) == Some(k)
  {
    hide Pow2, TrailingZeros;
    PowersOfTwo(MIN_ORDER + k);
  }

  /** A power of two is served by exactly its own order, and has its size in
      range exactly if it is 16 KB to 256 KB. */
  lemma ClassOfExact(size: nat)
    requires IsPowerOfTwo(size)
    ensures ClassOf(size).Some? <==> 16384 <= size <= 262144
    ensures ClassOf(size).Some? ==> Size(ClassOf(size).value) == size
  {
    hide Pow2, TrailingZeros, IsPowerOfTwo;
    var e := PowerOfTwoExponent(size);
    PowersOfTwo(e);
    Pow2Values();
    if e < MIN_ORDER { Pow2Monotone(e, MIN_ORDER); }
    else if e > MAX_ORDER { Pow2Monotone(MAX_ORDER, e); }
    else { Pow2Monotone(MIN_ORDER, e); Pow2Monotone(e, MAX_ORDER); }
  }

  /** Any other size is served by the order of its lowest set bit: the largest block
      size that divides it, if that is one. */
  lemma ClassOfAny(size: nat, k: nat)
    requires size > 0 && k <= TOP
    ensures ClassOf(size) == Some(k) <==> size % Size(k) == 0 && size % (2 * Size(k)) != 0
  {
    hide Pow2, TrailingZeros;
    LowestBit(size, MIN_ORDER + k);
  }

  lemma NothingForZero()
    ensures ClassOf(0) == None
  {
  }

  lemma {:induction false} LowestBit(n: nat, e: nat)
    requires n > 0
    ensures TrailingZeros(n) == e <==> n % Pow2(e) == 0 && n % (2 * Pow2(e)) != 0
    decreases n
  {
    if n % 2 == 0 {
      if e > 0 {
        LowestBit(n / 2, e - 1);
        HalveBoth(n, Pow2(e - 1));
        HalveBoth(n, Pow2(e));
      }
    } else if e > 0 {
      OddIsNoMultiple(n, Pow2(e - 1));
    }
  }

  lemma HalveBoth(n: nat, m: nat)
    requires m > 0 && n % 2 == 0
    ensures n % (2 * m) == 0 <==> (n / 2) % m == 0
  {
    DivMod(n, 2 * m);
    DivMod(n / 2, m);
    if n % (2 * m) == 0 {
      ModIs(n / 2, m, n / (2 * m), 0);
    }
    if (n / 2) % m == 0 {
      ModIs(n, 2 * m, (n / 2) / m, 0);
    }
  }

  lemma OddIsNoMultiple(n: nat, m: nat)
    requires m > 0 && n % 2 == 1
    ensures n % (2 * m) != 0
  {
    DivMod(n, 2 * m);
    if n % (2 * m) == 0 {
      ModIs(n, 2, m * (n / (2 * m)), 0);
    }
  }

  /** A served request of `size` bytes gets a block of 2^order bytes, of which 16
      are the header: for every size the caller has exactly Size(k) - 16 bytes,
      fewer than it asked for, and a range of `size` bytes from the pointer ends
      at least 16 bytes past the block. */
  lemma RequestOverrunsBlock(size: nat, c: nat)
    requires size > 0 && ClassOf(size).Some?
    ensures var k := ClassOf(size).value;
            var ptr, end := c + HEADER_SIZE, c + Size(k);
            && end - ptr == Size(k) - 16 < size
            && ptr + size >= end + 16
            && (IsPowerOfTwo(size) ==> ptr + size == end + 16)
  {
    hide Pow2, IsPowerOfTwo;
    OddPart(size);
    if IsPowerOfTwo(size) {
      ClassOfExact(size);
    }
  }

  /** The lowest set bit of a number is at most the number. */
  lemma {:induction false} OddPart(n: nat)
    requires n > 0
    ensures Pow2(TrailingZeros(n)) <= n
    decreases n
  {
    if n % 2 == 0 {
      OddPart(n / 2);
    }
  }

  /** What that costs: after the first 16 KB allocation of a new allocator, the
      16 bytes past the block are the header of the free block behind it, so a
      caller that fills the size it asked for overwrites it, and the headers no
      longer represent the heap. */
  lemma FullWriteBreaksNeighbour(mem: Memory, heads: seq<nat>, r: nat, v: Header)
    requires r > 0 && Aligned(r, TOP)
    requires Represents(mem, heads, FirstHeap(r), 0)
    ensures ClassOf(16384) == Some(0)
    ensures r + HEADER_SIZE <= r + Size(0) < r + HEADER_SIZE + 16384
    ensures IsFree(FirstHeap(r), r + Size(0), 0)
    ensures BreaksAt(mem, heads, FirstHeap(r), r + Size(0), v)
  {
    hide Pow2, Represents, Size, FirstHeap, TrailingZeros;
    Pow2Values();
    ClassOfSize(0);
    SizeIs(0);
    FirstNeighbour(r);
    OverwriteBreaks(mem, heads, FirstHeap(r), r + Size(0), v);
  }

  /** The heap after the first 16 KB allocation from a region at `r`. */
  ghost function FirstHeap(r: nat): Heap {
    Allocate(EMPTY, 0, Some(r)).0
  }

  /** A free block's header lies at `a`, and overwriting it with anything else
      loses the heap. */
  ghost predicate BreaksAt(mem: Memory, heads: seq<nat>, h: Heap, a: nat, v: Header) {
    a in mem && mem[a].isFree && mem[a].order == MIN_ORDER && (v != mem[a] ==> !Represents(mem[a := v], heads, h, 0))
  }

  lemma FirstNeighbour(r: nat)
    requires r > 0 && Aligned(r, TOP)
    ensures var h := FirstHeap(r);
            |h.lists| == NUM_ORDERS && h.lists[0] == [r + Size(0)] && IsFree(h, r + Size(0), 0)
  {
    hide Size, Tiled, Maximal, Allocate, Floor;
    FirstAllocation(r);
    EmptyIsWellFormed();
    AllocateKeeps(EMPTY, 0, Some(r));
    assert r + Size(0) in FirstHeap(r).lists[0];
  }

  lemma OverwriteBreaks(mem: Memory, heads: seq<nat>, h: Heap, a: nat, v: Header)
    requires Represents(mem, heads, h, 0) && IsFree(h, a, 0) && |h.lists| == NUM_ORDERS && h.lists[0] == [a]
    ensures BreaksAt(mem, heads, h, a, v)
  {
    var list := h.lists[0];
    HeadsSay(mem, heads, h.lists, 0);
    assert list[0] == a && mem[list[0]].next == Lists.At(list, 1);
    if Represents(mem[a := v], heads, h, 0) {
      HeadsSay(mem[a := v], heads, h.lists, 0);
      assert mem[a := v][list[0]].next == Lists.At(list, 1);
    }
  }

  /** `ptr` is what `alloc(size)` returned and has not been freed. */
  ghost predicate Allocated(h: Heap, ptr: nat, size: nat) {
    && ptr >= HEADER_SIZE && IsLive(h, ptr - HEADER_SIZE)
    && ClassOf(size) == Some(h.blocks[ptr - HEADER_SIZE])
  }

  /** `h'` is the heap after the block behind `ptr` is freed. */
  ghost predicate FreedTo(h: Heap, ptr: nat, h': Heap) {
    hide WellFormed;
    ptr >= HEADER_SIZE && IsLive(h, ptr - HEADER_SIZE) && WellFormed(h) && h' == Free(h, ptr - HEADER_SIZE)
  }

  ghost predicate CoalescedTo(h: Heap, block: nat, order: nat, h': Heap) {
    && MIN_ORDER <= order <= MAX_ORDER && |h.lists| == NUM_ORDERS && Aligned(block, order - MIN_ORDER)
    && h' == Coalesce(h, block, order - MIN_ORDER)
  }

  class BuddyAllocator {
    const heads: array<nat>
    var base: nat
    var regionSize: nat
    var mem: Memory
    ghost var heap: Heap

    /** `busy` is a block being worked on, 0 between calls. */
    ghost predicate Works(busy: nat)
      reads this, heads
    {
      && heads.Length == NUM_ORDERS
      && WellFormed(heap) && Represents(mem, heads[..], heap, busy)
      && base == heap.base && regionSize == heap.limit
    }

    ghost predicate Valid()
      reads this, heads
    {
      Works(0)
    }

    constructor ()
      ensures Valid() && heap == EMPTY && fresh(heads)
    {
      heads := new nat[5](_ => 0);
      base, regionSize, mem, heap := 0, 0, map[], EMPTY;
      new;
      EmptyIsWellFormed();
      hide WellFormed;
    }

    /** Make the region the current one, one free block of the top size. */
    method Init(ptr: nat, size: nat)
      requires Valid() && FreshRegion(heap, ptr, size) && IsPowerOfTwo(size) && heap.lists[TOP] == []
      modifies this, heads
      ensures Valid() && heap == AddRegion(old(heap), ptr, size)
    {
      hide WellFormed, Represents, Pow2, TrailingZeros, IsPowerOfTwo, FreshRegion;
      ghost var before := heads[..];
      base := ptr;
      regionSize := size;
      var maxOrder := TrailingZeros(size);
      ClampedOrder(size) by { FreshSize(heap, ptr, size); }
      var order := if maxOrder < MIN_ORDER then MIN_ORDER else if maxOrder > MAX_ORDER then MAX_ORDER else maxOrder;
      mem := mem[ptr := Header(order, true, 0)];
      heads[order - MIN_ORDER] := ptr;
      ListsThere(heap);
      InitKeeps(old(mem), before, heap, ptr, size);
      heap := AddRegion(heap, ptr, size);
      assert heads[..] == before[TOP := ptr];
    }

    /** `alloc(size)`.  `page` is what the page source answers if it is asked.
        The result points past the header of a block of 2^order bytes. */
    method Alloc(size: nat, page: Option<nat>) returns (r: Option<nat>)
      requires Valid() && (page.Some? ==> FreshRegion(heap, page.value, REGION))
      modifies this, heads
      ensures Valid()
      ensures ClassOf(size) == None ==> r == None && heap == old(heap)
      ensures ClassOf(size).Some? ==>
        && |old(heap).lists| == NUM_ORDERS && ClassOf(size).value <= TOP
        && var (h', c) := Allocate(old(heap), ClassOf(size).value, page);
           heap == h' && r == (if c == None then None else Some(c.value + HEADER_SIZE))
      decreases if heads.Length == 5 && heads[4] == 0 then 2 else 0
    {
      hide WellFormed, AllLinked, Marked, Pow2, TrailingZeros, FreshRegion, SplitDown, Find, AddRegion;
      ListsThere(heap);
      ghost var before := heads[..];
      var order := TrailingZeros(size);
      if !(MIN_ORDER <= order <= MAX_ORDER) {
        return None;
      }
      var k := order - MIN_ORDER;
      var j := k;
      while j < NUM_ORDERS && heads[j] == 0
        modifies {}
        invariant k <= j <= NUM_ORDERS && heads[..] == before && (j > TOP ==> heads[TOP] == 0)
        invariant Find(heap.lists, k) == Find(heap.lists, j)
      {
        HeadsSay(mem, before, heap.lists, j);
        FindNext(heap.lists, j);
        j := j + 1;
      }
      if j >= NUM_ORDERS {
        r := AllocNewRegion(order, page);
        return;
      }
      HeadsSay(mem, before, heap.lists, j);
      FindHere(heap.lists, j);
      r := TakeAndSplit(j, k);
    }

    /** The part of `alloc` after the search: unlink, split, mark. */
    method TakeAndSplit(j: nat, k: nat) returns (r: Option<nat>)
      requires Valid() && k <= j <= TOP && |heap.lists| == NUM_ORDERS && Find(heap.lists, k) == j
      modifies this, heads
      ensures Valid() && heap == AllocFrom(old(heap), k) && r == Some(old(heap).lists[j][0] + HEADER_SIZE)
    {
      hide WellFormed, AllLinked, Marked, Find;
      ghost var h, before := heap, heads[..];
      TakeWorks(mem, before, h, j);
      var block := heads[j];
      heads[j] := mem[block].next;
      assert heads[..] == before[j := mem[block].next];
      heap := Take(h, j);
      if j > k {
        Split(block, j + MIN_ORDER, k + MIN_ORDER);
      }
      SplitDownKeeps(Take(h, j), block, j, k);
      AllocMarks(mem, heads[..], heap, block);
      mem := mem[block := mem[block].(isFree := false, next := 0)];
      r := Some(block + HEADER_SIZE);
    }

    /** `alloc_new_region(order)`. */
    method AllocNewRegion(order: nat, page: Option<nat>) returns (r: Option<nat>)
      requires Valid() && MIN_ORDER <= order <= MAX_ORDER && (page.Some? ==> FreshRegion(heap, page.value, REGION))
      requires |heap.lists| == NUM_ORDERS && Find(heap.lists, order - MIN_ORDER) == NUM_ORDERS
      modifies this, heads
      ensures Valid()
      ensures var (h', c) := Allocate(old(heap), order - MIN_ORDER, page);
              heap == h' && r == (if c == None then None else Some(c.value + HEADER_SIZE))
      decreases 1
    {
      hide WellFormed, AllLinked, Marked, Pow2, TrailingZeros, FreshRegion, SplitDown, Find, IsPowerOfTwo;
      match page
      case None =>
        return None;
      case Some(ptr) =>
        var size := Pow2(MAX_ORDER);
        assert size == REGION && IsPowerOfTwo(size) by { Pow2Values(); PowersOfTwo(MAX_ORDER); }
        EmptyAbove(heap.lists, order - MIN_ORDER);
        Init(ptr, size);
        FindInNewRegion(old(heap), ptr, order - MIN_ORDER);
        HeadsSay(mem, heads[..], heap.lists, TOP);
        ClassOfSize(order - MIN_ORDER);
        r := Alloc(Pow2(order), None);
    }

    /** `dealloc(ptr, size)`. */
    method Dealloc(ptr: nat, size: nat)
      requires Allocated(heap, ptr, size)
      requires Valid()
      modifies this, heads
      ensures FreedTo(old(heap), ptr, heap)
      ensures Valid()
    {
      hide WellFormed, Represents, Pow2, TrailingZeros, Size, Floor, Coalesce;
      var order := TrailingZeros(size);
      var block := ptr - HEADER_SIZE;
      DeallocMarks(mem, heads[..], heap, block);
      mem := mem[block := mem[block].(isFree := true, order := order)];
      BlockFacts(heap, block);
      ListsThere(heap);
      CoalesceLoop(block, order);
    }

    /** `split(block, from, to)`. */
    method Split(block: nat, from: nat, to: nat)
      requires Works(block) && MIN_ORDER <= to <= from <= MAX_ORDER
      requires IsLive(heap, block) && heap.blocks[block] == from - MIN_ORDER && |heap.lists| == NUM_ORDERS
      modifies this, heads
      ensures Works(block) && heap == SplitDown(old(heap), block, from - MIN_ORDER, to - MIN_ORDER)
    {
      hide WellFormed, AllLinked, Marked, Pow2, Size, SplitOnce;
      var current := from;
      while current > to
        invariant to <= current <= from && Works(block)
        invariant IsLive(heap, block) && heap.blocks[block] == current - MIN_ORDER && |heap.lists| == NUM_ORDERS
        invariant SplitDown(heap, block, current - MIN_ORDER, to - MIN_ORDER)
               == SplitDown(old(heap), block, from - MIN_ORDER, to - MIN_ORDER)
      {
        ghost var h, m, before := heap, mem, heads[..];
        var k := current - 1 - MIN_ORDER;
        SplitTurn(m, before, h, block, k);
        var half := Pow2(current - 1);
        assert half == Size(k) by { SizeIs(k); }
        var buddy := block + half;
        mem := mem[buddy := Header(current - 1, true, 0)];
        mem := mem[block := mem[block].(order := current - 1)];
        mem := mem[buddy := mem[buddy].(next := heads[k])];
        heads[k] := buddy;
        assert heads[..] == before[k := buddy];
        assert mem == m[block := m[block].(order := MIN_ORDER + k)][buddy := Header(MIN_ORDER + k, true, before[k])];
        heap := SplitOnce(h, block, k);
        current := current - 1;
      }
    }

    /** `coalesce(block, order)`.  Every header it reads is in memory, being the
        header of a current block. */
    method CoalesceLoop(block: nat, order: nat)
      requires MIN_ORDER <= order <= MAX_ORDER && block in mem && mem[block].isFree
      requires IsLive(heap, block) && heap.blocks[block] == order - MIN_ORDER
      requires |heap.lists| == NUM_ORDERS && Aligned(block, order - MIN_ORDER)
      requires Works(block)
      modifies this, heads
      ensures CoalescedTo(old(heap), block, order, heap)
      ensures Valid()
    {
      hide WellFormed, Represents, Pow2, Size, Buddy, Floor, IsFree, MergeOnce, Coalesce, Xor, AllLinked, SameMarks,
          Remove, PutBack, Apart, CanMerge;
      var current: nat, currentOrder: nat := block, order;
      while currentOrder < MAX_ORDER
        invariant order <= currentOrder <= MAX_ORDER && Works(current) && current in mem && mem[current].isFree
        invariant IsLive(heap, current) && heap.blocks[current] == currentOrder - MIN_ORDER
        invariant |heap.lists| == NUM_ORDERS && Aligned(current, currentOrder - MIN_ORDER)
        invariant Coalesce(heap, current, currentOrder - MIN_ORDER) == Coalesce(old(heap), block, order - MIN_ORDER)
      {
        ghost var h, m, before := heap, mem, heads[..];
        var k := currentOrder - MIN_ORDER;
        var buddy := Xor(current, Pow2(currentOrder));
        assert buddy == Buddy(current, k) by { XorIsBuddy(current, k); }
        BuddyHeader(m, before, h, current, k);
        if base == 0 || buddy < base || buddy >= base + regionSize {
          assert !CanMerge(heap, current, k);
          break;
        }
        if !mem[buddy].isFree || mem[buddy].order != currentOrder {
          assert !CanMerge(heap, current, k);
          break;
        }
        ListsApartIn(h);
        assert CanMerge(h, current, k);
        RemoveFromFreeList(buddy, k, h.lists);
        MergeTurn(m, before, mem, heads[..], h, current, k);
        var merged := if current < buddy then current else buddy;
        assert merged == Floor(current, k + 1) by { BuddyFacts(current, k); }
        mem := mem[merged := mem[merged].(order := currentOrder + 1)];
        heap := MergeOnce(h, current, k);
        current := merged;
        currentOrder := currentOrder + 1;
      }
      var k := currentOrder - MIN_ORDER;
      ghost var h, m, before := heap, mem, heads[..];
      if currentOrder == MAX_ORDER { TopNeverMerges(h, current); }
      assert !CanMerge(h, current, k);
      LastTurn(m, before, h, current, k);
      mem := mem[current := mem[current].(next := heads[k])];
      heads[k] := current;
      assert heads[..] == before[k := current];
      heap := PutBack(h, current, k);
    }

    /** `remove_from_free_list(block, k)`: the list loses the block, if it was
        there, and nothing else changes. */
    method RemoveFromFreeList(block: nat, k: nat, ghost lists: seq<seq<nat>>)
      requires AllLinked(mem, heads[..], lists) && Apart(lists) && k < NUM_ORDERS && block != 0
      modifies this`mem, heads
      ensures heads.Length == NUM_ORDERS
      ensures AllLinked(mem, heads[..], lists[k := Remove(lists[k], block)])
      ensures SameMarks(old(mem), mem)
    {
      hide Linked, Remove, Apart;
      ghost var list, before, i := lists[k], heads[..], 0;
      HeadsSay(mem, before, lists, k);
      var current, prev := heads[k], 0;
      while current != 0
        invariant mem == old(mem) && heads[..] == before
        invariant i <= |list| && current == Lists.At(list, i) && prev == (if i == 0 then 0 else list[i - 1])
        invariant block !in list[..i]
        decreases |list| - i
      {
        LinkAt(mem, before[k], list, i);
        if current == block {
          var next := mem[current].next;
          RemoveTurn(mem, before, lists, k, i);
          RemoveIsCut(list, block, i);
          if prev != 0 {
            mem := mem[prev := mem[prev].(next := next)];
            assert heads[..] == before;
          } else {
            heads[k] := next;
            assert heads[..] == before[k := next];
          }
          return;
        }
        prev := current;
        current := mem[current].next;
        i := i + 1;
      }
      RemoveNothing(mem, before, lists, k, block, i);
    }

    /** The owner of a block writes anything into it, past its header. */
    method ClientWrites(c: nat, m: Memory)
      requires Valid() && IsLive(heap, c)
      requires forall x :: x in mem && !(c < x < c + Size(heap.blocks[c])) ==> x in m && m[x] == mem[x]
      modifies this`mem
      ensures Valid() && mem == m
    {
      hide WellFormed, Represents, Size;
      RepClient(mem, m, heads[..], heap, c);
      mem := m;
    }
  }

  lemma FreshSize(h: Heap, r: nat, size: nat)
    requires FreshRegion(h, r, size)
    ensures size >= REGION
  {
    hide Size;
  }

  lemma ClampedOrder(size: nat)
    requires IsPowerOfTwo(size) && size >= REGION
    ensures TrailingZeros(size) >= MAX_ORDER
  {
    hide Pow2, TrailingZeros, IsPowerOfTwo;
    var e := PowerOfTwoExponent(size);
    PowersOfTwo(e);
    Pow2Values();
    if e < MAX_ORDER {
      Pow2Monotone(e, MAX_ORDER);
    }
  }

  lemma InitKeeps(mem: Memory, heads: seq<nat>, h: Heap, r: nat, size: nat)
    requires WellFormed(h) && Represents(mem, heads, h, 0) && FreshRegion(h, r, size) && h.lists[TOP] == []
    ensures WellFormed(AddRegion(h, r, size))
    ensures Represents(mem[r := Header(MAX_ORDER, true, 0)], heads[TOP := r], AddRegion(h, r, size), 0)
  {
    hide Size, Tiled, Maximal, Represents;
    assert r !in h.regions;
    RegionIsNoBlock(h, r);
    AddRegionKeeps(h, r, size);
    RepAddRegion(mem, heads, h, r, size);
  }

  // ------------------------------------------------------------------
  // The search
  // ------------------------------------------------------------------

  lemma FindNext(lists: seq<seq<nat>>, k: nat)
    requires |lists| == NUM_ORDERS && k < NUM_ORDERS && lists[k] == []
    ensures Find(lists, k) == Find(lists, k + 1)
  {
  }

  lemma FindHere(lists: seq<seq<nat>>, k: nat)
    requires |lists| == NUM_ORDERS && k < NUM_ORDERS && lists[k] != []
    ensures Find(lists, k) == k
  {
  }

  lemma SizeIs(k: nat)
    ensures Size(k) == Pow2(MIN_ORDER + k)
  {
  }

  // ------------------------------------------------------------------
  // Turns of the loops
  // ------------------------------------------------------------------

  lemma TakeWorks(mem: Memory, heads: seq<nat>, h: Heap, j: nat)
    requires j <= TOP && |h.lists| == NUM_ORDERS && |heads| == NUM_ORDERS && h.lists[j] != []
    requires WellFormed(h) && Represents(mem, heads, h, 0)
    ensures heads[j] == h.lists[j][0] && heads[j] in mem
    ensures Represents(mem, heads[j := mem[heads[j]].next], Take(h, j), heads[j])
    ensures WellFormed(Take(h, j)) && IsLive(Take(h, j), heads[j]) && Take(h, j).blocks[heads[j]] == j
  {
    hide Tiled, Maximal, RegionsOk, Represents;
    RepTake(mem, heads, h, j);
    TakeKeeps(h, j);
  }

  lemma AllocMarks(mem: Memory, heads: seq<nat>, h: Heap, c: nat)
    requires WellFormed(h) && Represents(mem, heads, h, c) && IsLive(h, c)
    ensures c in mem && Represents(mem[c := mem[c].(isFree := false, next := 0)], heads, h, 0)
  {
    hide Tiled, Maximal, RegionsOk, AllLinked;
    RepMark(mem, heads, h, c, 0, mem[c].(isFree := false, next := 0));
  }

  lemma DeallocMarks(mem: Memory, heads: seq<nat>, h: Heap, c: nat)
    requires WellFormed(h) && Represents(mem, heads, h, 0) && IsLive(h, c)
    ensures c != 0 && c in mem && mem[c].order == MIN_ORDER + h.blocks[c]
    ensures Represents(mem[c := mem[c].(isFree := true)], heads, h, c)
  {
    hide Tiled, Maximal, RegionsOk, AllLinked;
    assert Represents(mem, heads, h, c);
    RepMark(mem, heads, h, c, c, mem[c].(isFree := true));
  }

  lemma SplitTurn(mem: Memory, heads: seq<nat>, h: Heap, c: nat, k: nat)
    requires |h.lists| == NUM_ORDERS && |heads| == NUM_ORDERS && k < TOP && IsLive(h, c) && h.blocks[c] == k + 1
    requires WellFormed(h) && Represents(mem, heads, h, c)
    ensures c in mem
    ensures Represents(SplitMemory(mem, heads, c, k), heads[k := c + Size(k)], SplitOnce(h, c, k), c)
    ensures var h' := SplitOnce(h, c, k);
            && IsLive(h', c) && h'.blocks[c] == k && |h'.lists| == NUM_ORDERS && h'.base == h.base
                && h'.limit == h.limit
            && WellFormed(h')
  {
    hide WellFormed, Represents, Size, SplitMemory;
    BlockInMemory(mem, heads, h, c, c);
    RepSplit(mem, heads, h, c, k);
    SplitKeeps(h, c, k);
  }

  lemma BlockInMemory(mem: Memory, heads: seq<nat>, h: Heap, busy: nat, a: nat)
    requires Represents(mem, heads, h, busy) && a in h.blocks
    ensures a in mem
  {
    hide AllLinked;
  }

  /** The address read as the buddy's header is the start of a block, and says
      whether that block is free and of the same size. */
  lemma BuddyHeader(mem: Memory, heads: seq<nat>, h: Heap, a: nat, k: nat)
    requires IsLive(h, a) && h.blocks[a] == k && k < TOP && Aligned(a, k)
    requires WellFormed(h) && Represents(mem, heads, h, a)
    ensures AllLinked(mem, heads, h.lists)
    ensures var b := Buddy(a, k);
            && b != 0 && b in h.blocks && b in mem
            && (CanMerge(h, a, k) <==>
                h.base != 0 && h.base <= b < h.base + h.limit && mem[b].isFree && mem[b].order == MIN_ORDER + k)
  {
    hide Tiled, Maximal, RegionsOk, AllLinked, Size, Buddy, ListsOk;
    BuddyIsBlock(h.blocks, h.regions, a, k);
    BuddyFacts(a, k);
  }

  lemma ListsApartIn(h: Heap)
    requires WellFormed(h)
    ensures Apart(h.lists)
  {
    hide Tiled, Maximal, RegionsOk;
    ListsApart(h);
  }

  lemma MergeTurn(m: Memory, before: seq<nat>, m': Memory, heads: seq<nat>, h: Heap, a: nat, k: nat)
    requires |h.lists| == NUM_ORDERS && k < TOP && Aligned(a, k) && IsLive(h, a) && h.blocks[a] == k
    requires a in m && m[a].isFree && CanMerge(h, a, k)
    requires AllLinked(m', heads, h.lists[k := Remove(h.lists[k], Buddy(a, k))])
    requires WellFormed(h) && Represents(m, before, h, a) && SameMarks(m, m')
    ensures MergedTo(h, a, k, Floor(a, k + 1), MergeOnce(h, a, k)) && WellFormed(MergeOnce(h, a, k))
    ensures Floor(a, k + 1) in m' && m'[Floor(a, k + 1)].isFree
    ensures Represents(Raised(m', Floor(a, k + 1), k + 1), heads, MergeOnce(h, a, k), Floor(a, k + 1))
  {
    hide WellFormed, AllLinked, Size, Buddy, Floor, Remove, Raised;
    RepMerge(m, m', heads, h, a, k);
    MergeKeeps(h, a, k);
    FloorFacts(a, k + 1);
    BuddyFacts(a, k);
    ListsThere(MergeOnce(h, a, k));
  }

  /** `h'` with the block in hand at `p` is `h` with it at `a`, one level up. */
  ghost predicate MergedTo(h: Heap, a: nat, k: nat, p: nat, h': Heap) {
    && k < TOP && |h.lists| == NUM_ORDERS && |h'.lists| == NUM_ORDERS && Aligned(a, k) && Aligned(p, k + 1)
    && IsLive(h', p) && h'.blocks[p] == k + 1 && h'.base == h.base && h'.limit == h.limit
    && Coalesce(h, a, k) == Coalesce(h', p, k + 1)
  }

  lemma TopNeverMerges(h: Heap, a: nat)
    requires Aligned(a, TOP)
    ensures !CanMerge(h, a, TOP)
  {
  }

  lemma LastTurn(mem: Memory, heads: seq<nat>, h: Heap, a: nat, k: nat)
    requires k <= TOP && Aligned(a, k) && |h.lists| == NUM_ORDERS && |heads| == NUM_ORDERS
    requires IsLive(h, a) && h.blocks[a] == k && !CanMerge(h, a, k) && a in mem && mem[a].isFree
    requires WellFormed(h) && Represents(mem, heads, h, a)
    ensures var h' := PutBack(h, a, k); WellFormed(h') && h'.base == h.base && h'.limit == h.limit
    ensures Represents(mem[a := mem[a].(next := heads[k])], heads[k := a], PutBack(h, a, k), 0)
    ensures Coalesce(h, a, k) == PutBack(h, a, k)
  {
    hide Tiled, Maximal, RegionsOk, AllLinked, Size, Buddy, Floor;
    PutBackKeeps(h, a, k);
    RepPutBack(mem, heads, h, a, k);
  }

  // ------------------------------------------------------------------
  // Unlinking
  // ------------------------------------------------------------------

  lemma LinkAt(mem: Memory, head: nat, list: seq<nat>, i: nat)
    requires Linked(mem, head, list) && Lists.At(list, i) != 0
    ensures i < |list| && list[i] in mem && mem[list[i]].next == Lists.At(list, i + 1)
            && (i > 0 ==> list[i - 1] in mem && list[i - 1] != 0)
  {
  }

  lemma RemoveTurn(mem: Memory, heads: seq<nat>, lists: seq<seq<nat>>, k: nat, i: nat)
    requires AllLinked(mem, heads, lists) && Apart(lists) && k < NUM_ORDERS && i < |lists[k]|
    ensures var list := lists[k];
            var cut := list[..i] + list[i + 1..];
            list[i] in mem && (i > 0 ==> list[i - 1] in mem)
            && AllLinked(if i == 0 then mem else mem[list[i - 1] := mem[list[i - 1]].(next := mem[list[i]].next)],
                         if i == 0 then heads[k := mem[list[i]].next] else heads, lists[k := cut])
  {
    hide Linked;
    var list := lists[k];
    HeadsSay(mem, heads, lists, k);
    if i == 0 {
      LinkedPop(mem, heads[k], list);
      assert list[..0] + list[1..] == list[1..];
    } else {
      LinkAt(mem, heads[k], list, i) by { LinkedNonzero(mem, heads[k], list, i); }
      LinkedCut(mem, heads[k], list, i);
      assert list[i - 1] in list;
      var v := mem[list[i - 1]].(next := mem[list[i]].next);
      AllLinkedUpdate(mem, heads, lists, k, list[i - 1], v, heads[k], list[..i] + list[i + 1..]);
      assert heads[k := heads[k]] == heads;
    }
  }

  lemma LinkedNonzero(mem: Memory, head: nat, list: seq<nat>, i: nat)
    requires Linked(mem, head, list) && i < |list|
    ensures Lists.At(list, i) != 0
  {
  }

  lemma RemoveNothing(mem: Memory, heads: seq<nat>, lists: seq<seq<nat>>, k: nat, b: nat, i: nat)
    requires AllLinked(mem, heads, lists) && k < NUM_ORDERS && i <= |lists[k]| && Lists.At(lists[k], i) == 0
             && b !in lists[k][..i]
    ensures lists[k := Remove(lists[k], b)] == lists
  {
    hide Linked, Remove;
    HeadsSay(mem, heads, lists, k);
    assert i == |lists[k]| by { LinkedEnds(mem, heads[k], lists[k], i); }
    assert lists[k][..i] == lists[k];
    RemoveAbsent(lists[k], b);
  }

  lemma LinkedEnds(mem: Memory, head: nat, list: seq<nat>, i: nat)
    requires Linked(mem, head, list) && i <= |list| && Lists.At(list, i) == 0
    ensures i == |list|
  {
  }
}
