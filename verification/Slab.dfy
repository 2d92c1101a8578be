/** One slab: fixed-size slots over at most four pages, handed out from an
    intrusive free list first, then by bumping through the newest page. */
module Slab {
  import opened Bits
  import opened Common
  import opened LinkedLists

  const PAGE_SIZE: nat := 4096
  const MAX_SLAB_PAGES: nat := 4

  /** The slot a position stands for: positions count the slots in the order in
      which they are first handed out. */
  function SlotAt(pages: seq<nat>, size: nat, per: nat, i: nat): nat
    requires per > 0 && i / per < |pages|
  {
    pages[i / per] + i % per * size
  }

  /** Positions handed out at least once. */
  function Bumped(pages: seq<nat>, per: nat, next: nat): nat {
    if pages == [] then 0 else (|pages| - 1) * per + next
  }

  ghost predicate IsSlot(pages: seq<nat>, size: nat, per: nat, n: nat, p: nat) {
    exists i: nat :: i < n && SlotIs(pages, size, per, i, p)
  }

  ghost predicate SlotIs(pages: seq<nat>, size: nat, per: nat, i: nat, p: nat) {
    per > 0 && i / per < |pages| && SlotAt(pages, size, per, i) == p
  }

  /** Pages are page aligned, nonzero and distinct; slots fill them. */
  ghost predicate PagesOk(pages: seq<nat>, size: nat, per: nat) {
    && size > 0 && per > 0 && per * size == PAGE_SIZE
    && |pages| <= MAX_SLAB_PAGES && Distinct(pages)
    && forall i :: 0 <= i < |pages| ==> pages[i] > 0 && pages[i] % PAGE_SIZE == 0
  }

  // ------------------------------------------------------------------
  // Positions
  // ------------------------------------------------------------------

  lemma PositionFits(i: nat, per: nat, size: nat)
    requires per > 0 && size > 0 && per * size == PAGE_SIZE
    ensures i % per * size + size <= PAGE_SIZE
    ensures i % per * size >= 0
  {
    Distribute(per, i % per, size);
    MulAtLeast(per - i % per, size);
  }

  /** A position's page follows from its slot's address, and its place in it. */
  lemma SlotPlace(pages: seq<nat>, size: nat, per: nat, i: nat)
    requires PagesOk(pages, size, per) && i / per < |pages|
    ensures var p := SlotAt(pages, size, per, i);
            p > 0 && p - p % PAGE_SIZE == pages[i / per] && p % PAGE_SIZE == i % per * size
                && p % PAGE_SIZE + size <= PAGE_SIZE
  {
    hide Distinct;
    PositionFits(i, per, size);
    InPage(pages[i / per], i % per * size);
  }

  lemma InPage(page: nat, d: nat)
    requires page % PAGE_SIZE == 0 && d < PAGE_SIZE
    ensures (page + d) % PAGE_SIZE == d
  {
  }

  /** Different positions are slots that do not overlap. */
  lemma SlotsApart(pages: seq<nat>, size: nat, per: nat, i: nat, j: nat)
    requires PagesOk(pages, size, per) && i / per < |pages| && j / per < |pages| && i != j
    ensures var p, q := SlotAt(pages, size, per, i), SlotAt(pages, size, per, j);
            p + size <= q || q + size <= p
  {
    hide SlotAt, PagesOk;
    PerPositive(pages, size, per);
    SlotPlace(pages, size, per, i);
    SlotPlace(pages, size, per, j);
    var p, q := SlotAt(pages, size, per, i), SlotAt(pages, size, per, j);
    if i / per == j / per {
      SamePage(pages, size, per, i, j);
    } else {
      OtherPage(pages, size, per, i, j);
      PageGap(p, q);
    }
  }

  lemma OtherPage(pages: seq<nat>, size: nat, per: nat, i: nat, j: nat)
    requires PagesOk(pages, size, per) && i / per < |pages| && j / per < |pages| && i / per != j / per
    ensures pages[i / per] != pages[j / per]
  {
    var m, n := i / per, j / per;
    if m < n {
      assert pages[m] != pages[n];
    } else {
      assert pages[n] != pages[m];
    }
  }

  lemma SamePage(pages: seq<nat>, size: nat, per: nat, i: nat, j: nat)
    requires PagesOk(pages, size, per) && i / per == j / per && i != j
    ensures i % per * size + size <= j % per * size || j % per * size + size <= i % per * size
  {
    hide Distinct;
    DivMod(i, per);
    DivMod(j, per);
    OffsetsApart(i % per, j % per, size);
  }

  lemma OffsetsApart(x: nat, y: nat, size: nat)
    requires x != y && size > 0
    ensures x * size + size <= y * size || y * size + size <= x * size
  {
    if x < y {
      Distribute(y, x, size);
      MulAtLeast(y - x, size);
    } else {
      Distribute(x, y, size);
      MulAtLeast(x - y, size);
    }
  }

  lemma PageGap(p: nat, q: nat)
    requires p - p % PAGE_SIZE != q - q % PAGE_SIZE
    ensures p - p % PAGE_SIZE + PAGE_SIZE <= q || q - q % PAGE_SIZE + PAGE_SIZE <= p
  {
  }

  /** Two slots of a slab are the same or do not overlap. */
  lemma SlotsDisjoint(pages: seq<nat>, size: nat, per: nat, n: nat, p: nat, q: nat)
    requires PagesOk(pages, size, per) && IsSlot(pages, size, per, n, p) && IsSlot(pages, size, per, n, q) && p < q
    ensures p + size <= q
  {
    hide SlotAt, PagesOk;
    var i: nat :| i < n && SlotIs(pages, size, per, i, p);
    var j: nat :| j < n && SlotIs(pages, size, per, j, q);
    SlotsApart(pages, size, per, i, j);
  }

  lemma PageIndex(i: nat, per: nat, n: nat)
    requires per > 0 && i < n * per
    ensures i / per < n
  {
    DivMod(i, per);
    var q := i / per;
    if q >= n {
      Distribute(q, n, per);
      ProductNonNegative(q - n, per);
    }
  }

  lemma ProductNonNegative(a: nat, b: nat)
    ensures a * b >= 0
  {
  }

  /** Bumping adds one slot, which was not one before. */
  lemma BumpAdds(pages: seq<nat>, size: nat, per: nat, n: nat, p: nat)
    requires PagesOk(pages, size, per) && n < |pages| * per && n / per < |pages|
    ensures IsSlot(pages, size, per, n + 1, p) <==> IsSlot(pages, size, per, n, p) || p == SlotAt(pages, size, per, n)
    ensures !IsSlot(pages, size, per, n, SlotAt(pages, size, per, n))
  {
    hide SlotAt, PagesOk;
    if p == SlotAt(pages, size, per, n) {
      assert SlotIs(pages, size, per, n, p);
    }
    if IsSlot(pages, size, per, n, p) {
      var i: nat :| i < n && SlotIs(pages, size, per, i, p);
      assert i < n + 1 && SlotIs(pages, size, per, i, p);
    }
    forall i: nat | i < n
      ensures !SlotIs(pages, size, per, i, SlotAt(pages, size, per, n))
    {
      if i / per < |pages| {
        SlotsApart(pages, size, per, i, n);
        assert size > 0 by { SizePositive(pages, size, per); }
      }
    }
  }

  lemma SizePositive(pages: seq<nat>, size: nat, per: nat)
    requires PagesOk(pages, size, per)
    ensures size > 0
  {
  }

  /** A further page does not change the slots handed out before. */
  lemma PageKeepsSlots(pages: seq<nat>, page: nat, size: nat, per: nat, n: nat, p: nat)
    requires per > 0 && n <= |pages| * per
    ensures IsSlot(pages + [page], size, per, n, p) <==> IsSlot(pages, size, per, n, p)
  {
    forall i: nat | i < n
      ensures SlotIs(pages + [page], size, per, i, p) <==> SlotIs(pages, size, per, i, p)
    {
      PageIndex(i, per, |pages|);
    }
    hide SlotIs;
  }

  lemma SlotsFillPage(size: nat)
    requires IsPowerOfTwo(size) && 16 <= size <= PAGE_SIZE
    ensures PAGE_SIZE / size > 0 && PAGE_SIZE / size * size == PAGE_SIZE
  {
    hide IsPowerOfTwo, Pow2;
    var k := PowerOfTwoExponent(size);
    Pow2Values();
    if k > 12 { Pow2Monotone(13, k); }
    Pow2Add(12 - k, k);
    ModIs(PAGE_SIZE, size, Pow2(12 - k), 0);
  }

  lemma FullIff(pages: seq<nat>, size: nat, per: nat, next: nat)
    requires PagesOk(pages, size, per) && next <= per && (pages == [] ==> next == 0)
    ensures Bumped(pages, per, next) == |pages| * per <==> pages == [] || next >= per
    ensures Bumped(pages, per, next) <= |pages| * per
  {
    Distribute(|pages|, 1, per);
  }

  /** Where a slot lies: whole in a page, and aligned to the slot size. */
  lemma SlotFacts(pages: seq<nat>, size: nat, per: nat, n: nat, p: nat)
    requires PagesOk(pages, size, per) && IsSlot(pages, size, per, n, p)
    ensures size > 0 && p > 0 && p % size == 0 && p % PAGE_SIZE + size <= PAGE_SIZE
    ensures exists j :: 0 <= j < |pages| && pages[j] <= p < pages[j] + PAGE_SIZE
  {
    hide SlotAt;
    var i: nat :| i < n && SlotIs(pages, size, per, i, p);
    SlotPlace(pages, size, per, i);
    AlignedInPage(p, size, per, i % per);
    assert pages[i / per] <= p < pages[i / per] + PAGE_SIZE;
  }

  lemma Sum(a: nat, b: nat, m: nat)
    ensures (a + b) * m == a * m + b * m
  {
  }

  lemma AlignedInPage(p: nat, size: nat, per: nat, k: nat)
    requires size > 0 && per * size == PAGE_SIZE && p % PAGE_SIZE == k * size
    ensures p % size == 0
  {
    DivMod(p, PAGE_SIZE);
    var q := p / PAGE_SIZE;
    assert q * PAGE_SIZE == (q * per) * size;
    assert p == (q * per + k) * size by { Sum(q * per, k, size); }
    ModIs(p, size, q * per + k, 0);
  }

  lemma NewPageUsed(pages: seq<nat>, page: nat, per: nat, next: nat)
    requires pages == [] || next == per
    ensures Bumped(pages + [page], per, 0) == Bumped(pages, per, next) == |pages| * per
  {
    Distribute(|pages|, 1, per);
  }

  lemma NewPageOk(pages: seq<nat>, page: nat, size: nat, per: nat)
    requires PagesOk(pages, size, per) && |pages| < MAX_SLAB_PAGES && page > 0 && page % PAGE_SIZE == 0
             && page !in pages
    ensures PagesOk(pages + [page], size, per)
  {
  }

  /** The next bump position is in the newest page. */
  lemma NextPosition(pages: seq<nat>, size: nat, per: nat, next: nat)
    requires PagesOk(pages, size, per) && pages != [] && next < per
    ensures var n := Bumped(pages, per, next);
            && n < |pages| * per && n / per == |pages| - 1 && n % per == next
            && SlotAt(pages, size, per, n) == pages[|pages| - 1] + next * size
            && Bumped(pages, per, next + 1) == n + 1
  {
    Distribute(|pages|, 1, per);
    ModIs(Bumped(pages, per, next), per, |pages| - 1, next);
  }

  // ------------------------------------------------------------------
  // Counting
  // ------------------------------------------------------------------

  ghost function Slots(pages: seq<nat>, size: nat, per: nat, n: nat): (r: set<nat>)
    requires per > 0 && n <= |pages| * per
    ensures |r| <= n
  {
    if n == 0 then {}
    else
      PageIndex(n - 1, per, |pages|);
      Slots(pages, size, per, n - 1) + {SlotAt(pages, size, per, n - 1)}
  }

  lemma {:induction false} SlotListed(pages: seq<nat>, size: nat, per: nat, n: nat, i: nat, p: nat)
    requires per > 0 && n <= |pages| * per && i < n && SlotIs(pages, size, per, i, p)
    ensures p in Slots(pages, size, per, n)
    decreases n
  {
    if i < n - 1 {
      SlotListed(pages, size, per, n - 1, i, p);
    }
  }

  lemma {:induction false} DistinctCount(list: seq<nat>, s: set<nat>)
    requires Distinct(list) && forall x :: x in list ==> x in s
    ensures |list| <= |s|
    decreases |list|
  {
    if list != [] {
      var rest := list[1..];
      assert list == [list[0]] + rest;
      assert forall i :: 0 <= i < |rest| ==> rest[i] == list[i + 1];
      assert list[0] in s;
      DistinctCount(rest, s - {list[0]});
    }
  }

  /** With a slot in use, fewer slots are free than were handed out. */
  lemma MoreUsedThanFree(pages: seq<nat>, size: nat, per: nat, n: nat, free: seq<nat>, p: nat)
    requires per > 0 && n <= |pages| * per && Distinct(free) && IsSlot(pages, size, per, n, p) && p !in free
    requires forall q :: q in free ==> IsSlot(pages, size, per, n, q)
    ensures |free| < n
  {
    var list := [p] + free;
    forall x | x in list
      ensures x in Slots(pages, size, per, n)
    {
      assert IsSlot(pages, size, per, n, x);
      var i: nat :| i < n && SlotIs(pages, size, per, i, x);
      SlotListed(pages, size, per, n, i, x);
    }
    assert Distinct(list) by {
      forall i, j | 0 <= i < j < |list|
        ensures list[i] != list[j]
      {
        assert list[j] == free[j - 1] && free[j - 1] in free;
      }
    }
    DistinctCount(list, Slots(pages, size, per, n));
  }

  lemma PerPositive(pages: seq<nat>, size: nat, per: nat)
    requires PagesOk(pages, size, per)
    ensures per > 0
  {
  }

  lemma FreeDistinct(links: Links, head: nat, list: seq<nat>)
    requires Linked(links, head, list)
    ensures Distinct(list)
  {
  }

  // ------------------------------------------------------------------
  // The slab
  // ------------------------------------------------------------------

  class Slab {
    const slotSize: nat
    const slotsPerPage: nat
    const pageArray: array<nat>
    var freeHead: nat
    var inUse: nat
    var numPages: nat
    var nextSlot: nat
    var links: Links
    ghost var free: seq<nat>

    function Pages(): seq<nat>
      reads this, pageArray
      requires numPages <= pageArray.Length
    {
      pageArray[..numPages]
    }

    /** Slots handed out at least once. */
    function Used(): nat
      reads this, pageArray
      requires numPages <= pageArray.Length
    {
      Bumped(Pages(), slotsPerPage, nextSlot)
    }

    ghost predicate Valid()
      reads this, pageArray
    {
      && pageArray.Length == MAX_SLAB_PAGES && numPages <= MAX_SLAB_PAGES
      && PagesOk(Pages(), slotSize, slotsPerPage)
      && nextSlot <= slotsPerPage && (numPages == 0 ==> nextSlot == 0)
      && Linked(links, freeHead, free)
      && (forall p :: p in free ==> IsSlot(Pages(), slotSize, slotsPerPage, Used(), p))
      && inUse + |free| == Used()
    }

    /** A slot in the program's hands. */
    ghost predicate Live(p: nat)
      reads this, pageArray
      requires numPages <= pageArray.Length
    {
      IsSlot(Pages(), slotSize, slotsPerPage, Used(), p) && p !in free
    }

    constructor (size: nat)
      requires IsPowerOfTwo(size) && 16 <= size <= PAGE_SIZE
      ensures Valid() && slotSize == size && inUse == 0 && free == [] && Used() == 0 && fresh(pageArray)
    {
      slotSize := size;
      slotsPerPage := PAGE_SIZE / size;
      pageArray := new nat[4](_ => 0);
      freeHead, inUse, numPages, nextSlot, links, free := 0, 0, 0, 0, map[], [];
      new;
      SlotsFillPage(size);
    }

    /** `alloc`; `page` is what the page source answers if it is asked. */
    method Alloc(page: Option<nat>) returns (r: Option<nat>)
      requires Valid()
      requires page.Some? ==> page.value > 0 && page.value % PAGE_SIZE == 0 && page.value !in Pages()
      modifies this, pageArray
      ensures Valid()
      ensures r == None <==>
              && old(free) == [] && old(Used()) == old(numPages) * slotsPerPage
              && (page == None || old(numPages) == MAX_SLAB_PAGES)
      ensures r == None ==> inUse == old(inUse) && (page == None || inUse == MAX_SLAB_PAGES * slotsPerPage)
      ensures r.Some? ==> old(!Live(r.value)) && Live(r.value) && inUse == old(inUse) + 1
      ensures r.Some? ==> r.value > 0 && r.value % slotSize == 0 && r.value % PAGE_SIZE + slotSize <= PAGE_SIZE
      ensures forall q :: (r.Some? ==> q != r.value) ==> (Live(q) <==> old(Live(q)))
      ensures free == (if old(free) == [] then [] else old(free)[1..]) && (old(free) != [] ==> r == Some(old(free)[0]))
      ensures old(free) == [] && r.Some? ==>
              SlotIs(Pages(), slotSize, slotsPerPage, old(Used()), r.value) && Used() == old(Used()) + 1
      ensures Pages() == old(Pages()) || (page.Some? && Pages() == old(Pages()) + [page.value])
    {
      hide Linked, PagesOk, IsSlot;
      LinkedHead(links, freeHead, free);
      if freeHead != 0 {
        r := AllocFree();
        return;
      }
      var full := numPages == 0 || nextSlot >= slotsPerPage;
      FullIff(Pages(), slotSize, slotsPerPage, nextSlot);
      PerPositive(Pages(), slotSize, slotsPerPage);
      if full {
        if numPages >= MAX_SLAB_PAGES {
          return None;
        }
        match page
        case None => return None;
        case Some(base) => AllocNewPage(base);
      }
      r := AllocBump();
    }

    /** Pop the free list. */
    method AllocFree() returns (r: Option<nat>)
      requires Valid() && freeHead != 0
      modifies this
      ensures Valid() && old(free) != [] && r == Some(old(free)[0]) && free == old(free)[1..] && inUse == old(inUse) + 1
      ensures numPages == old(numPages) && nextSlot == old(nextSlot) && Live(r.value) && old(!Live(r.value))
      ensures r.value > 0 && r.value % slotSize == 0 && r.value % PAGE_SIZE + slotSize <= PAGE_SIZE
      ensures forall q :: q != r.value ==> (Live(q) <==> old(Live(q)))
    {
      hide Linked, PagesOk, IsSlot;
      LinkedPop(links, freeHead, free);
      var p := freeHead;
      assert p in free && free == [p] + free[1..];
      SlotFacts(Pages(), slotSize, slotsPerPage, Used(), p);
      freeHead := links[p];
      inUse := inUse + 1;
      free := free[1..];
      r := Some(p);
    }

    /** `alloc_new_page`, with the page the source answered. */
    method AllocNewPage(base: nat)
      requires Valid() && free == [] && numPages < MAX_SLAB_PAGES && (numPages == 0 || nextSlot == slotsPerPage)
      requires base > 0 && base % PAGE_SIZE == 0 && base !in Pages()
      modifies this, pageArray
      ensures Valid() && Pages() == old(Pages()) + [base] && nextSlot == 0 && free == [] && inUse == old(inUse)
      ensures Used() == old(Used()) && freeHead == old(freeHead) && numPages == old(numPages) + 1
      ensures forall q :: Live(q) <==> old(Live(q))
    {
      hide Linked, IsSlot;
      ghost var pages, used := Pages(), Used();
      pageArray[numPages] := base;
      numPages := numPages + 1;
      nextSlot := 0;
      assert Pages() == pages + [base];
      NewPageUsed(pages, base, slotsPerPage, old(nextSlot));
      NewPageOk(pages, base, slotSize, slotsPerPage);
      forall q
        ensures IsSlot(Pages(), slotSize, slotsPerPage, used, q) <==> IsSlot(pages, slotSize, slotsPerPage, used, q)
      {
        PageKeepsSlots(pages, base, slotSize, slotsPerPage, used, q);
      }
    }

    /** The next slot of the newest page. */
    method AllocBump() returns (r: Option<nat>)
      requires Valid() && free == [] && numPages > 0 && nextSlot < slotsPerPage
      modifies this
      ensures Valid() && r.Some? && free == [] && inUse == old(inUse) + 1 && numPages == old(numPages)
      ensures Live(r.value) && old(!Live(r.value))
      ensures SlotIs(Pages(), slotSize, slotsPerPage, old(Used()), r.value) && Used() == old(Used()) + 1
      ensures r.value > 0 && r.value % slotSize == 0 && r.value % PAGE_SIZE + slotSize <= PAGE_SIZE
      ensures forall q :: q != r.value ==> (Live(q) <==> old(Live(q)))
    {
      hide Linked, IsSlot, PagesOk;
      PerPositive(Pages(), slotSize, slotsPerPage);
      ghost var pages, n := Pages(), Used();
      NextPosition(pages, slotSize, slotsPerPage, nextSlot);
      var page := pageArray[numPages - 1];
      var p := page + nextSlot * slotSize;
      assert p == SlotAt(pages, slotSize, slotsPerPage, n);
      nextSlot := nextSlot + 1;
      inUse := inUse + 1;
      assert Used() == n + 1;
      forall q
        ensures IsSlot(pages, slotSize, slotsPerPage, n + 1, q) <==>
                IsSlot(pages, slotSize, slotsPerPage, n, q) || q == p
      {
        BumpAdds(pages, slotSize, slotsPerPage, n, q);
      }
      BumpAdds(pages, slotSize, slotsPerPage, n, p);
      SlotFacts(pages, slotSize, slotsPerPage, n + 1, p);
      r := Some(p);
    }

    /** Freeing a slot and allocating again returns that slot, and restores the
        free list. */
    method FreeThenAlloc(p: nat, page: Option<nat>) returns (r: Option<nat>)
      requires Valid() && Live(p)
      requires page.Some? ==> page.value > 0 && page.value % PAGE_SIZE == 0 && page.value !in Pages()
      modifies this, pageArray
      ensures Valid() && r == Some(p) && free == old(free) && inUse == old(inUse)
      ensures forall q :: Live(q) <==> old(Live(q))
    {
      hide Linked, IsSlot, PagesOk;
      Dealloc(p);
      r := Alloc(page);
    }

    /** `dealloc`: a pointer outside every page is ignored. */
    method Dealloc(p: nat)
      requires Valid() && (Live(p) || forall i :: 0 <= i < numPages ==> !(pageArray[i] <= p < pageArray[i] + PAGE_SIZE))
      modifies this
      ensures Valid() && numPages == old(numPages) && nextSlot == old(nextSlot)
      ensures old(Live(p)) ==> free == [p] + old(free) && inUse == old(inUse) - 1 && !Live(p)
      ensures !old(Live(p)) ==> free == old(free) && inUse == old(inUse)
      ensures forall q :: q != p ==> (Live(q) <==> old(Live(q)))
    {
      hide Linked, IsSlot, PagesOk;
      var found, i := false, 0;
      while i < numPages && !found
        decreases numPages - i, !found
        invariant i <= numPages
        invariant !found ==> forall j :: 0 <= j < i ==> !(pageArray[j] <= p < pageArray[j] + PAGE_SIZE)
        invariant found ==> exists j :: 0 <= j < numPages && pageArray[j] <= p < pageArray[j] + PAGE_SIZE
      {
        if pageArray[i] <= p < pageArray[i] + PAGE_SIZE {
          found := true;
        } else {
          i := i + 1;
        }
      }
      assert found <==> Live(p) by {
        if Live(p) { SlotFacts(Pages(), slotSize, slotsPerPage, Used(), p); }
      }
      if !found {
        return;
      }
      SlotFacts(Pages(), slotSize, slotsPerPage, Used(), p);
      FullIff(Pages(), slotSize, slotsPerPage, nextSlot);
      FreeDistinct(links, freeHead, free);
      MoreUsedThanFree(Pages(), slotSize, slotsPerPage, Used(), free,
          p) by { PerPositive(Pages(), slotSize, slotsPerPage); }
      LinkedPush(links, freeHead, free, p);
      links := links[p := freeHead];
      freeHead := p;
      inUse := inUse - 1;
      free := [p] + free;
    }
  }
}
