/** The thread-local cache of whole page runs: ten size classes, each an
    intrusive list of at most 32 cached runs. */
module ThreadLocalCache {
  import opened Bits
  import opened Common
  import opened BlockLayout
  import opened LinkedLists

  const SLOTS: nat := 10
  const CACHE_SIZE: nat := 32

  // ------------------------------------------------------------------
  // Slots
  // ------------------------------------------------------------------

  /** `get_slot`: tiny slots are 0 to 3, small slots 4 to 9. */
  function GetSlot(size: nat): Option<nat> {
    if size <= 128 then
      var a := CacheSize(size);
      if a > 128 then None
      else
        var i := TrailingZeros(a / 16);
        if i < 4 then Some(i) else None
    else if size <= 8192 then
      var a := RoundUpPow2(size);
      if !(256 <= a <= 8192) then None
      else
        var i := TrailingZeros(a / 256);
        if i < 6 then Some(4 + i) else None
    else None
  }

  /** `size_for_index`. */
  function SizeForIndex(tiny: bool, i: nat): nat {
    if tiny then 16 * Pow2(i) else 256 * Pow2(i)
  }

  function SlotSize(slot: nat): nat {
    if slot < 4 then SizeForIndex(true, slot) else SizeForIndex(false, slot - 4)
  }

  /** Pages mapped for a run of the slot. */
  function SlotPages(slot: nat): nat {
    var n := DivCeil(SlotSize(slot), PAGE_SIZE);
    if n < 1 then 1 else n
  }

  lemma SlotSizes(slot: nat)
    requires slot < SLOTS
    ensures SlotSize(slot) == ClassSize(slot)
    ensures SlotSize(slot) == [16, 32, 64, 128, 256, 512, 1024, 2048, 4096, 8192][slot]
  {
    Pow2Values();
    ClassSizeValue(slot);
    assert Pow2(1) == 2 && Pow2(2) == 4 && Pow2(3) == 8;
  }

  lemma SmallTrailingZeros()
    ensures TrailingZeros(1) == 0 && TrailingZeros(2) == 1 && TrailingZeros(4) == 2 && TrailingZeros(8) == 3
    ensures TrailingZeros(16) == 4 && TrailingZeros(32) == 5
  {
    PowersOfTwo(0);
    PowersOfTwo(1);
    PowersOfTwo(2);
    PowersOfTwo(3);
    PowersOfTwo(4);
    PowersOfTwo(5);
    assert Pow2(1) == 2 && Pow2(2) == 4 && Pow2(3) == 8;
    Pow2Values();
  }

  /** The slot arithmetic agrees with the allocator's size classes: sizes up to
      8192 get the smallest slot that holds them, larger sizes none. */
  lemma GetSlotIsLeastFit(size: nat)
    ensures GetSlot(size) == if size <= 8192 then SizeToClass(size) else None
    ensures GetSlot(size).Some? ==>
              var i := GetSlot(size).value;
              i < SLOTS && size <= SlotSize(i) && CacheSize(size) == SlotSize(i)
                  && forall d: nat :: size <= ClassSize(d) ==> i <= d
  {
    hide Pow2, IsPowerOfTwo, BitLength, RoundUpPow2, TrailingZeros, SizeToClass, SlotSize;
    SmallTrailingZeros();
    if size <= 8192 {
      FitsBelow63(size);
      SizeToClassIsLeastFit(size);
      var c := SizeToClass(size).value;
      assert size <= ClassSize(9) by { ClassSizeValue(9); }
      assert c <= 9;
      if size <= 128 {
        assert size <= ClassSize(3) by { ClassSizeValue(3); }
        assert c <= 3;
      }
      ClassSizeValue(c);
      SlotSizes(c);
    }
  }

  /** Whichever expression computes it, the page count of a run is the same. */
  lemma SamePages(size: nat)
    requires GetSlot(size).Some?
    ensures GetSlot(size).value < SLOTS
    ensures DivCeil(RoundUpPow2(size), PAGE_SIZE) == SlotPages(GetSlot(size).value)
    ensures DivCeil(SlotSize(GetSlot(size).value), PAGE_SIZE) == SlotPages(GetSlot(size).value) > 0
  {
    hide Pow2, IsPowerOfTwo, BitLength, GetSlot, SlotSize;
    GetSlotIsLeastFit(size);
    SlotSizes(GetSlot(size).value);
    assert RoundUpPow2(size) > 0;
    hide RoundUpPow2;
  }

  lemma SomePages(size: nat)
    ensures DivCeil(RoundUpPow2(size), PAGE_SIZE) > 0
  {
    hide BitLength, IsPowerOfTwo, Pow2;
  }

  lemma SlotPagesAre(slot: nat)
    requires slot < SLOTS
    ensures DivCeil(SlotSize(slot), PAGE_SIZE) == SlotPages(slot) && SlotPages(slot) > 0
  {
    SlotSizes(slot);
  }

  // ------------------------------------------------------------------
  // The invariant
  // ------------------------------------------------------------------

  /** A mapped run is with the program or cached, for one slot, or it is one the
      program got elsewhere, of a size that has no slot. */
  datatype Place = Live(slot: nat) | Cached(slot: nat) | Outside

  type Places = map<nat, Place>

  ghost predicate ChainsOk(links: Links, heads: seq<nat>, lists: seq<seq<nat>>) {
    |heads| == SLOTS && |lists| == SLOTS && forall i :: 0 <= i < SLOTS ==> Linked(links, heads[i], lists[i])
  }

  ghost predicate PlacesOk(lists: seq<seq<nat>>, place: Places) {
    && |lists| == SLOTS && 0 !in place
    && (forall i, p :: 0 <= i < SLOTS ==> (p in lists[i] <==> p in place && place[p] == Cached(i)))
    && (forall p :: p in place && !place[p].Outside? ==> place[p].slot < SLOTS)
  }

  ghost predicate CountsOk(counts: seq<nat>, lists: seq<seq<nat>>) {
    |counts| == SLOTS && |lists| == SLOTS && forall i :: 0 <= i < SLOTS ==> counts[i] == |lists[i]| <= CACHE_SIZE
  }

  /** Every mapped run is accounted for, with the page count it was mapped with. */
  ghost predicate MappedOk(mapped: map<nat, nat>, place: Places) {
    mapped.Keys == place.Keys && forall p :: p in place && !place[p].Outside? ==> mapped[p] == SlotPages(place[p].slot)
  }

  lemma PushChains(links: Links, heads: seq<nat>, lists: seq<seq<nat>>, place: Places, k: nat, p: nat)
    requires ChainsOk(links, heads, lists) && PlacesOk(lists, place) && k < SLOTS && p in place && place[p].Live?
    ensures ChainsOk(links[p := heads[k]], heads[k := p], lists[k := [p] + lists[k]])
    ensures PlacesOk(lists[k := [p] + lists[k]], place[p := Cached(k)])
  {
    hide Linked;
    var heads', lists' := heads[k := p], lists[k := [p] + lists[k]];
    forall i | 0 <= i < SLOTS
      ensures Linked(links[p := heads[k]], heads'[i], lists'[i])
    {
      assert p !in lists[i];
      if i == k {
        LinkedPush(links, heads[k], lists[k], p);
      } else {
        LinkedFrame(links, heads[i], lists[i], p, heads[k]);
      }
    }
  }

  lemma PopChains(links: Links, heads: seq<nat>, lists: seq<seq<nat>>, place: Places, k: nat, where: Place)
    requires ChainsOk(links, heads, lists) && PlacesOk(lists, place) && k < SLOTS && heads[k] != 0
    requires where == Live(k)
    ensures lists[k] != [] && heads[k] == lists[k][0] && heads[k] in links && heads[k] in place
            && place[heads[k]] == Cached(k)
    ensures ChainsOk(links, heads[k := links[heads[k]]], lists[k := lists[k][1..]])
    ensures PlacesOk(lists[k := lists[k][1..]], place[heads[k] := where])
  {
    hide Linked;
    LinkedPop(links, heads[k], lists[k]);
    assert heads[k] in lists[k];
    assert lists[k] == [heads[k]] + lists[k][1..];
  }

  // ------------------------------------------------------------------
  // Runs that go away
  // ------------------------------------------------------------------

  /** Unmapping a run that is on no list. */
  lemma UnmapLive(links: Links, heads: seq<nat>, lists: seq<seq<nat>>, place: Places, p: nat)
    requires ChainsOk(links, heads, lists) && PlacesOk(lists, place) && p in place && !place[p].Cached?
    ensures ChainsOk(links - {p}, heads, lists) && PlacesOk(lists, place - {p})
  {
    hide Linked;
    forall i | 0 <= i < SLOTS
      ensures Linked(links - {p}, heads[i], lists[i])
    {
      assert p !in lists[i];
      LinkedUnmap(links, heads[i], lists[i], p);
    }
  }

  /** The links of every list but that of slot `k`. */
  ghost predicate OtherChains(links: Links, heads: seq<nat>, lists: seq<seq<nat>>, k: nat) {
    |heads| == SLOTS && |lists| == SLOTS && forall i :: 0 <= i < SLOTS && i != k ==> Linked(links, heads[i], lists[i])
  }

  /** One turn of `clear_slot`: the `j`-th run of slot `k` is unmapped. */
  lemma ClearTurn(links: Links, heads: seq<nat>, lists: seq<seq<nat>>, place: Places, k: nat, j: nat, current: nat)
    requires OtherChains(links, heads, lists, k) && PlacesOk(lists, place) && k < SLOTS
    requires j <= |lists[k]| && Linked(links, current, lists[k][j..]) && current != 0
    ensures j < |lists[k]| && current == lists[k][j] && current in links && current in place
            && place[current] == Cached(k)
    ensures OtherChains(links - {current}, heads, lists, k) && Linked(links - {current}, links[current],
            lists[k][j + 1..])
  {
    hide Linked;
    var rest := lists[k][j..];
    LinkedPop(links, current, rest);
    assert rest[1..] == lists[k][j + 1..];
    LinkedUnmap(links, links[current], lists[k][j + 1..], current);
    assert current in lists[k];
    assert current in place && place[current] == Cached(k);
    forall i | 0 <= i < SLOTS && i != k
      ensures Linked(links - {current}, heads[i], lists[i])
    {
      assert current !in lists[i];
      LinkedUnmap(links, heads[i], lists[i], current);
    }
  }

  /** After the walk the slot is empty and nothing else changed. */
  lemma ClearDone(links: Links, heads: seq<nat>, lists: seq<seq<nat>>, place: Places, k: nat)
    requires OtherChains(links, heads, lists, k) && PlacesOk(lists, place) && k < SLOTS
    ensures ChainsOk(links, heads[k := 0], lists[k := []])
    ensures PlacesOk(lists[k := []], Without(place, lists[k]))
  {
    var heads', lists' := heads[k := 0], lists[k := []];
    forall i | 0 <= i < SLOTS
      ensures Linked(links, heads'[i], lists'[i])
    {
      assert i == k || Linked(links, heads[i], lists[i]);
    }
    hide Linked;
    var place' := Without(place, lists[k]);
    forall i, p | 0 <= i < SLOTS
      ensures p in lists'[i] <==> p in place' && place'[p] == Cached(i)
    {
      assert p in lists[i] <==> p in place && place[p] == Cached(i);
      assert p in lists[k] <==> p in place && place[p] == Cached(k);
    }
  }

  function Without<T>(m: map<nat, T>, gone: seq<nat>): (r: map<nat, T>)
    ensures forall x :: x in r <==> x in m && x !in gone
    ensures forall x :: x in r ==> r[x] == m[x]
  {
    map x | x in m && x !in gone :: m[x]
  }

  lemma WithoutOne(place: Places, mapped: map<nat, nat>, list: seq<nat>, j: nat)
    requires j < |list| && Distinct(list) && MappedOk(mapped, place) && list[j] in place
    ensures list[j] in Without(mapped, list[..j]) && Without(mapped, list[..j])[list[j]] == mapped[list[j]]
    ensures Without(mapped, list[..j]) - {list[j]} == Without(mapped, list[..j + 1])
    ensures Without(place, list[..j]) - {list[j]} == Without(place, list[..j + 1])
  {
    assert list[..j + 1] == list[..j] + [list[j]];
    assert list[j] !in list[..j];
  }

  lemma WithoutAll(place: Places, mapped: map<nat, nat>, list: seq<nat>)
    requires MappedOk(mapped, place)
    ensures MappedOk(Without(mapped, list), Without(place, list))
    ensures list == [] ==> Without(place, list) == place && Without(mapped, list) == mapped
  {
    hide SlotPages;
  }

  // ------------------------------------------------------------------
  // The cache
  // ------------------------------------------------------------------

  class ThreadLocalCache {
    const heads: array<nat>
    const counts: array<nat>
    var links: Links
    var mapped: map<nat, nat>
    ghost var lists: seq<seq<nat>>
    ghost var place: Places

    ghost predicate Valid()
      reads this, heads, counts
    {
      && heads.Length == SLOTS && counts.Length == SLOTS && heads != counts
      && ChainsOk(links, heads[..], lists) && PlacesOk(lists, place)
      && CountsOk(counts[..], lists) && MappedOk(mapped, place)
    }

    constructor ()
      ensures Valid() && place == map[] && mapped == map[] && fresh(heads) && fresh(counts)
    {
      heads := new nat[10](_ => 0);
      counts := new nat[10](_ => 0);
      links, mapped, lists, place := map[], map[], seq(SLOTS, _ => []), map[];
    }

    /** Give pages back: only a mapped run, with the count it was mapped with. */
    method Unmap(p: nat, pages: nat)
      requires p in mapped && mapped[p] == pages
      modifies this`links, this`mapped
      ensures mapped == old(mapped) - {p} && links == old(links) - {p}
    {
      mapped := mapped - {p};
      links := links - {p};
    }

    /** `alloc`: a cached run, else a new one. */
    method Alloc(size: nat, page: Option<nat>) returns (r: Option<nat>)
      requires Valid() && (page.Some? ==> page.value != 0 && page.value !in mapped)
      modifies this, heads, counts
      ensures Valid()
      ensures r == None <==> GetSlot(size) == None || (page == None && NoneCached(old(lists), GetSlot(size).value))
      ensures r == None ==> place == old(place) && mapped == old(mapped) && lists == old(lists)
      ensures r.Some? ==> GetSlot(size).Some? && place == old(place)[r.value := Live(GetSlot(size).value)]
                          && (r.value in old(place) ==> old(place)[r.value] == Cached(GetSlot(size).value))
      ensures r.Some? ==> mapped == old(mapped)[r.value := SlotPages(GetSlot(size).value)]
      ensures r.Some? ==> GetSlot(size).value < |old(lists)|
      ensures r.Some? ==> var k := GetSlot(size).value;
                          if old(lists)[k] == [] then r == page && lists == old(lists)
                          else r.value == old(lists)[k][0] && lists == old(lists)[k := old(lists)[k][1..]]
    {
      hide ChainsOk, PlacesOk, SlotPages, SlotSize, GetSlot;
      GetSlotIsLeastFit(size);
      CachedFacts(lists, place);
      var slot := GetSlot(size);
      if slot == None {
        return None;
      }
      var k := slot.value;
      ghost var heads0, counts0 := heads[..], counts[..];
      HeadSays(links, heads0, lists, k);
      if heads[k] != 0 {
        var p := heads[k];
        PopChains(links, heads0, lists, place, k, Live(k));
        heads[k] := links[p];
        counts[k] := counts[k] - 1;
        assert heads[..] == heads0[k := links[p]] && counts[..] == counts0[k := counts0[k] - 1];
        lists := lists[k := lists[k][1..]];
        assert mapped[p := SlotPages(k)] == mapped;
        place := place[p := Live(k)];
        return Some(p);
      }
      match page
      case None => return None;
      case Some(p) =>
        AddLive(lists, place, p, k);
        mapped := mapped[p := SlotPages(k)];
        place := place[p := Live(k)];
        return Some(p);
    }

    /** The program maps a run of its own, of a size that has no slot. */
    method MapOutside(p: nat, pages: nat)
      requires Valid() && p != 0 && p !in mapped
      modifies this`mapped, this`place
      ensures Valid() && place == old(place)[p := Outside] && mapped == old(mapped)[p := pages] && lists == old(lists)
    {
      hide ChainsOk, SlotPages;
      place := place[p := Outside];
      mapped := mapped[p := pages];
    }

    /** `dealloc`: cache the run, or unmap it when its slot is full or its size
        has none. */
    method Dealloc(p: nat, size: nat)
      requires Valid() && p in place
      requires (place[p].Live? && GetSlot(size) == Some(place[p].slot))
            || (place[p].Outside? && GetSlot(size) == None && p in mapped
                && mapped[p] == DivCeil(RoundUpPow2(size), PAGE_SIZE))
      modifies this, heads, counts
      ensures Valid() && |old(lists)| == SLOTS
      ensures old(place)[p].Live? ==>
                var k := old(place)[p].slot;
                && k < SLOTS
                && if |old(lists)[k]| < CACHE_SIZE
                   then place == old(place)[p := Cached(k)] && mapped == old(mapped)
                       && lists == old(lists)[k := [p] + old(lists)[k]]
                   else place == old(place) - {p} && mapped == old(mapped) - {p} && lists == old(lists)
      ensures old(place)[p].Outside? ==> place == old(place) - {p} && mapped == old(mapped) - {p} && lists == old(lists)
    {
      hide ChainsOk, PlacesOk, SlotPages, SlotSize, GetSlot, RoundUpPow2, DivCeil;
      CachedFacts(lists, place);
      ghost var heads0, counts0 := heads[..], counts[..];
      var slot := GetSlot(size);
      if slot == None {
        var pages := DivCeil(RoundUpPow2(size), PAGE_SIZE);
        UnmapLive(links, heads0, lists, place, p);
        SomePages(size);
        if pages > 0 {
          Unmap(p, pages);
        }
        place := place - {p};
        return;
      }
      SamePages(size);
      var k := slot.value;
      if counts[k] >= CACHE_SIZE {
        var pages := DivCeil(RoundUpPow2(size), PAGE_SIZE);
        UnmapLive(links, heads0, lists, place, p);
        if pages > 0 {
          Unmap(p, pages);
        }
        place := place - {p};
        return;
      }
      PushChains(links, heads0, lists, place, k, p);
      links := links[p := heads[k]];
      heads[k] := p;
      counts[k] := counts[k] + 1;
      assert heads[..] == heads0[k := p] && counts[..] == counts0[k := counts0[k] + 1];
      lists := lists[k := [p] + lists[k]];
      place := place[p := Cached(k)];
    }

    /** `clear_slot`: walk the list, unmapping every run. */
    method ClearSlot(k: nat)
      requires Valid() && k < SLOTS
      modifies this, heads, counts
      ensures Valid() && |old(lists)| == SLOTS && lists == old(lists)[k := []]
      ensures place == Without(old(place), old(lists)[k]) && mapped == Without(old(mapped), old(lists)[k])
    {
      hide ChainsOk, PlacesOk, SlotPages, SlotSize, Linked, OtherChains, DivCeil, Distinct;
      ghost var heads0, counts0, lists0, place0, mapped0 := heads[..], counts[..], lists, place, mapped;
      CachedFacts(lists, place);
      HeadSays(links, heads0, lists, k);
      ghost var list := lists[k];
      ChainsSplit(links, heads0, lists, k);
      WithoutNone(place, mapped);
      assert list[0..] == list && list[..0] == [];
      var current := heads[k];
      ghost var j := 0;
      while current != 0
        invariant j <= |list| && heads[..] == heads0 && counts[..] == counts0 && lists == lists0 && place == place0
        invariant OtherChains(links, heads0, lists0, k) && Linked(links, current, list[j..])
        invariant mapped == Without(mapped0, list[..j])
        decreases |list| - j
      {
        ClearTurn(links, heads0, lists0, place0, k, j, current);
        var next := links[current];
        var pages := DivCeil(SlotSize(k), PAGE_SIZE);
        SlotPagesAre(k);
        WithoutOne(place0, mapped0, list, j);
        if pages > 0 {
          Unmap(current, pages);
        }
        current := next;
        j := j + 1;
      }
      LinkedHead(links, current, list[j..]);
      assert list[..j] == list;
      ClearDone(links, heads0, lists0, place0, k);
      WithoutAll(place0, mapped0, list);
      heads[k] := 0;
      counts[k] := 0;
      assert heads[..] == heads0[k := 0] && counts[..] == counts0[k := 0];
      lists := lists[k := []];
      place := Without(place0, list);
    }

    /** `clear`: afterwards only runs held by the program are mapped; with none
        held, nothing is. */
    method Clear()
      requires Valid()
      modifies this, heads, counts
      ensures Valid() && Cleared(old(place), place)
      ensures forall i :: 0 <= i < |lists| ==> lists[i] == []
      ensures (forall p :: p in old(place) ==> old(place)[p].Cached?) ==> mapped == map[]
    {
      hide ChainsOk, PlacesOk, SlotPages, SlotSize, CountsOk;
      CachedFacts(lists, place);
      var i := 0;
      while i < SLOTS
        invariant i <= SLOTS && Valid() && |lists| == SLOTS
        invariant forall j :: 0 <= j < i ==> lists[j] == []
        invariant forall p :: p in place ==> p in old(place) && place[p] == old(place)[p]
        invariant forall p :: p in old(place) && !old(place)[p].Cached? ==> p in place
      {
        LiveNotCached(lists, place, i);
        ClearSlot(i);
        i := i + 1;
      }
      NoneCachedAnyMore(lists, place);
    }
  }

  lemma LiveNotCached(lists: seq<seq<nat>>, place: Places, i: nat)
    requires PlacesOk(lists, place) && i < SLOTS
    ensures forall p :: p in place && !place[p].Cached? ==> p !in lists[i]
  {
  }

  lemma NoneCachedAnyMore(lists: seq<seq<nat>>, place: Places)
    requires PlacesOk(lists, place) && forall i :: 0 <= i < SLOTS ==> lists[i] == []
    ensures forall p :: p in place ==> !place[p].Cached?
  {
    forall p | p in place && !place[p].Outside?
      ensures !place[p].Cached?
    {
      var i := place[p].slot;
      assert p in lists[i] <==> place[p] == Cached(i);
    }
  }

  lemma ChainsSplit(links: Links, heads: seq<nat>, lists: seq<seq<nat>>, k: nat)
    requires ChainsOk(links, heads, lists) && k < SLOTS
    ensures OtherChains(links, heads, lists, k) && Distinct(lists[k])
  {
  }

  lemma WithoutNone(place: Places, mapped: map<nat, nat>)
    ensures Without(place, []) == place && Without(mapped, []) == mapped
  {
  }

  predicate NoneCached(lists: seq<seq<nat>>, slot: nat) {
    slot < |lists| && lists[slot] == []
  }

  /** Nothing is cached any more; what the program holds stays. */
  ghost predicate Cleared(place: Places, place': Places) {
    && (forall p :: p in place' <==> p in place && !place[p].Cached?)
    && (forall p :: p in place' ==> place'[p] == place[p])
  }

  lemma CachedFacts(lists: seq<seq<nat>>, place: Places)
    requires PlacesOk(lists, place)
    ensures |lists| == SLOTS && forall p :: p in place && !place[p].Outside? ==> place[p].slot < SLOTS
  {
  }

  lemma HeadSays(links: Links, heads: seq<nat>, lists: seq<seq<nat>>, k: nat)
    requires ChainsOk(links, heads, lists) && k < SLOTS
    ensures |heads| == SLOTS && |lists| == SLOTS && Linked(links, heads[k], lists[k])
            && (heads[k] == 0 <==> lists[k] == [])
  {
  }

  lemma AddLive(lists: seq<seq<nat>>, place: Places, p: nat, k: nat)
    requires PlacesOk(lists, place) && p !in place && p != 0 && k < SLOTS
    ensures PlacesOk(lists, place[p := Live(k)])
  {
  }
}
