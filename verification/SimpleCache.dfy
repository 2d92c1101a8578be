/** The simple-cache build: per-thread free lists by size class, with one global
    list per class, all threaded through the first word of the free blocks.  The
    methods here run without interruption, the global pop as one step; their
    interleaving is the subject of `SimpleCacheMachine`. */
module SimpleCache {
  import opened Bits
  import opened Common
  import opened BlockLayout
  import opened LinkedLists

  const MAX_FREE_LIST_LENGTH: nat := 4096
  const GLOBAL_FREE_BATCH: nat := 128

  datatype Key = Local(t: nat, c: nat) | Global(c: nat)

  /** Where a carved block is: with the program, in one list, or in the hands of
      a thread that moves it between lists. */
  datatype Place = Live | In(k: Key) | Held(t: nat, c: nat)

  type Heads = map<Key, nat>
  type Lists = map<Key, seq<nat>>
  type Places = map<nat, Place>

  function Num(m: map<Key, nat>, k: Key): nat { if k in m then m[k] else 0 }
  function ListAt(lists: Lists, k: Key): seq<nat> { if k in lists then lists[k] else [] }

  ghost predicate ChainsOk(links: Links, heads: Heads, lists: Lists) {
    forall k :: Linked(links, Num(heads, k), ListAt(lists, k))
  }

  /** The lists hold exactly the idle blocks, each in the one list its place says. */
  ghost predicate PlacesOk(lists: Lists, place: Places) {
    && (forall k, b :: b in ListAt(lists, k) <==> b in place && place[b] == In(k))
    && 0 !in place
  }

  ghost predicate CountsOk(counts: map<Key, nat>, lists: Lists) {
    forall k: Key :: k.Local? ==> Num(counts, k) == |ListAt(lists, k)|
  }

  ghost predicate Bounded(lists: Lists) {
    forall k: Key :: k.Local? ==> |ListAt(lists, k)| < MAX_FREE_LIST_LENGTH
  }

  /** A block never leaves the class it was carved for. */
  ghost predicate KindsOk(place: Places, kinds: map<nat, nat>) {
    && place.Keys == kinds.Keys
    && (forall b :: b in place && place[b].In? ==> place[b].k.c == kinds[b])
    && (forall b :: b in place && place[b].Held? ==> place[b].c == kinds[b])
  }

  /** A request that the class serves. */
  ghost predicate Fits(c: nat, size: nat) {
    1 <= size <= MAX_CACHE_SIZE && c < NUM_CLASSES && SizeToClass(size) == Some(c)
  }

  /** The first word of a live block is a size of the class it was carved for. */
  ghost predicate HeadersOk(links: Links, place: Places, kinds: map<nat, nat>) {
    forall b :: b in place && place[b] == Live ==> b in links && b in kinds && Fits(kinds[b], links[b])
  }

  /** The sizes in the headers of the blocks with the program. */
  function LiveSizes(links: Links, place: Places): map<nat, nat> {
    map b | b in place && place[b] == Live && b in links :: links[b]
  }

  /** The same blocks are with the program, and in hand, except `b`. */
  ghost predicate SameLive(p: Places, p': Places, b: nat) {
    forall x :: x in p && x != b ==> x in p' && (p'[x].Live? <==> p[x].Live?) && (p'[x].Held? <==> p[x].Held?)
  }

  // ------------------------------------------------------------------
  // One block moves
  // ------------------------------------------------------------------

  lemma PushChains(links: Links, heads: Heads, lists: Lists, place: Places, k: Key, b: nat)
    requires ChainsOk(links, heads, lists) && PlacesOk(lists, place) && b != 0 && (b in place ==> !place[b].In?)
    ensures ChainsOk(links[b := Num(heads, k)], heads[k := b], lists[k := [b] + ListAt(lists, k)])
  {
    hide Linked;
    var links', heads', lists' := links[b := Num(heads, k)], heads[k := b], lists[k := [b] + ListAt(lists, k)];
    forall j
      ensures Linked(links', Num(heads', j), ListAt(lists', j))
    {
      assert Linked(links, Num(heads, j), ListAt(lists, j));
      assert b !in ListAt(lists, j);
      if j == k {
        LinkedPush(links, Num(heads, k), ListAt(lists, k), b);
      } else {
        LinkedFrame(links, Num(heads, j), ListAt(lists, j), b, Num(heads, k));
      }
    }
  }

  lemma PushPlaces(lists: Lists, place: Places, k: Key, b: nat)
    requires PlacesOk(lists, place) && b != 0 && (b in place ==> !place[b].In?)
    ensures PlacesOk(lists[k := [b] + ListAt(lists, k)], place[b := In(k)])
  {
    var lists', place' := lists[k := [b] + ListAt(lists, k)], place[b := In(k)];
    forall j, x
      ensures x in ListAt(lists', j) <==> x in place' && place'[x] == In(j)
    {
      assert x in ListAt(lists, j) <==> x in place && place[x] == In(j);
    }
  }

  /** The first block of a list is taken and its first word overwritten. */
  lemma PopChains(links: Links, heads: Heads, lists: Lists, place: Places, k: Key, v: nat)
    requires ChainsOk(links, heads, lists) && PlacesOk(lists, place) && Num(heads, k) != 0
    ensures ListAt(lists, k) != [] && Num(heads, k) == ListAt(lists, k)[0] && Num(heads, k) in links
    ensures Num(heads, k) in place && place[Num(heads, k)] == In(k)
    ensures var b := Num(heads, k);
            ChainsOk(links[b := v], heads[k := links[b]], lists[k := ListAt(lists, k)[1..]])
  {
    hide Linked;
    var b := Num(heads, k);
    assert Linked(links, b, ListAt(lists, k));
    LinkedPop(links, b, ListAt(lists, k));
    assert b in ListAt(lists, k);
    assert b in place && place[b] == In(k);
    var links', heads', lists' := links[b := v], heads[k := links[b]], lists[k := ListAt(lists, k)[1..]];
    forall j
      ensures Linked(links', Num(heads', j), ListAt(lists', j))
    {
      if j == k {
        assert ListAt(lists', k) == ListAt(lists, k)[1..];
        LinkedFrame(links, links[b], ListAt(lists, k)[1..], b, v);
      } else {
        assert Linked(links, Num(heads, j), ListAt(lists, j));
        assert b !in ListAt(lists, j);
        LinkedFrame(links, Num(heads, j), ListAt(lists, j), b, v);
      }
    }
  }

  lemma TailOf(list: seq<nat>)
    requires list != [] && Distinct(list)
    ensures forall x :: x in list[1..] <==> x in list && x != list[0]
  {
    assert list == [list[0]] + list[1..];
    assert forall i :: 0 <= i < |list[1..]| ==> list[1..][i] == list[i + 1];
  }

  lemma CountsKept(counts: map<Key, nat>, lists: Lists, k: Key, list: seq<nat>)
    requires CountsOk(counts, lists)
    ensures CountsOk(counts[k := |list|], lists[k := list])
  {
  }

  lemma GlobalKeepsCounts(counts: map<Key, nat>, lists: Lists, c: nat, list: seq<nat>)
    requires CountsOk(counts, lists)
    ensures CountsOk(counts, lists[Global(c) := list])
  {
  }

  lemma KindsKept(place: Places, kinds: map<nat, nat>, b: nat, where: Place, c: nat)
    requires KindsOk(place, kinds) && (where.In? ==> where.k.c == c) && (where.Held? ==> where.c == c)
    ensures KindsOk(place[b := where], kinds[b := c])
  {
  }

  lemma PopPlaces(lists: Lists, place: Places, k: Key, where: Place)
    requires PlacesOk(lists, place) && ListAt(lists, k) != [] && Distinct(ListAt(lists, k)) && !where.In?
    ensures PlacesOk(lists[k := ListAt(lists, k)[1..]], place[ListAt(lists, k)[0] := where])
  {
    var list := ListAt(lists, k);
    var b := list[0];
    var lists', place' := lists[k := list[1..]], place[b := where];
    TailOf(list);
    hide Distinct;
    forall j, x
      ensures x in ListAt(lists', j) <==> x in place' && place'[x] == In(j)
    {
      assert x in ListAt(lists, j) <==> x in place && place[x] == In(j);
    }
  }

  /** A block goes elsewhere, and its first word is written. */
  lemma HeadersKept(links: Links, place: Places, kinds: map<nat, nat>, b: nat, v: nat, where: Place, c: nat)
    requires HeadersOk(links, place, kinds) && (where.Live? ==> Fits(c, v))
    ensures HeadersOk(links[b := v], place[b := where], kinds[b := c])
  {
    hide Fits;
  }

  lemma HeadersRehomed(links: Links, place: Places, kinds: map<nat, nat>, batch: seq<nat>, where: Place)
    requires HeadersOk(links, place, kinds) && !where.Live?
    ensures HeadersOk(links, Rehomed(place, batch, where), kinds)
  {
    hide Fits;
  }

  /** Writing to a block on no list. */
  lemma WriteChains(links: Links, heads: Heads, lists: Lists, place: Places, b: nat, v: nat)
    requires ChainsOk(links, heads, lists) && PlacesOk(lists, place) && (b in place ==> !place[b].In?)
    ensures ChainsOk(links[b := v], heads, lists)
  {
    hide Linked;
    forall k
      ensures Linked(links[b := v], Num(heads, k), ListAt(lists, k))
    {
      assert Linked(links, Num(heads, k), ListAt(lists, k));
      assert b !in ListAt(lists, k);
      LinkedFrame(links, Num(heads, k), ListAt(lists, k), b, v);
    }
  }

  /** The class computed for a small request serves it. */
  lemma RequestFits(size: nat)
    requires 1 <= size <= MAX_CACHE_SIZE
    ensures Fits(ClassFor(CacheSize(size)), size)
  {
    hide CacheSize, SizeToClass;
    ClassIsStable(size);
    FitsBelow63(size);
    SizeToClassIsLeastFit(size);
  }

  /** The class read from a live block is the one it was carved for. */
  lemma HeaderClass(links: Links, place: Places, kinds: map<nat, nat>, b: nat)
    requires HeadersOk(links, place, kinds) && b in place && place[b] == Live
    ensures b in links && b in kinds && ClassFor(CacheSize(links[b])) == kinds[b]
  {
    hide CacheSize, SizeToClass;
    ClassIsStable(links[b]);
  }

  /** What one block's move does to the headers of live blocks. */
  lemma SizesMove(links: Links, place: Places, b: nat, v: nat, where: Place)
    ensures LiveSizes(links[b := v], place[b := where]) ==
            if where.Live? then LiveSizes(links, place)[b := v] else LiveSizes(links, place) - {b}
  {
  }

  /** Nor does a flush touch them. */
  lemma SizesFlush(links: Links, place: Places, batch: seq<nat>, where: Place, tail: nat, v: nat)
    requires !where.Live? && tail in batch && forall x :: x in batch ==> x in place && !place[x].Live?
    ensures LiveSizes(links[tail := v], Rehomed(place, batch, where)) == LiveSizes(links, place)
  {
  }

  lemma NotALiveSize(links: Links, place: Places, b: nat)
    requires b in place ==> !place[b].Live?
    ensures LiveSizes(links, place) - {b} == LiveSizes(links, place)
  {
  }

  // ------------------------------------------------------------------
  // A page of blocks, and what a batch moves
  // ------------------------------------------------------------------

  /** Starts of `n` consecutive blocks. */
  function Row(base: nat, size: nat, n: nat): set<nat> {
    if n == 0 then {} else Row(base, size, n - 1) + {base + (n - 1) * size}
  }

  lemma {:induction false} RowBelow(base: nat, size: nat, n: nat)
    requires size > 0
    ensures forall x :: x in Row(base, size, n) ==> base <= x && x + size <= base + n * size
    decreases n
  {
    if n > 0 {
      RowBelow(base, size, n - 1);
      assert n * size == (n - 1) * size + size by { Distribute(n, 1, size); }
    }
  }

  /** The list after pushing `n` consecutive blocks, the last one first. */
  function Stacked(base: nat, size: nat, n: nat): (s: seq<nat>)
    ensures |s| == n
  {
    if n == 0 then [] else [base + (n - 1) * size] + Stacked(base, size, n - 1)
  }

  /** The list after moving the first `n` of `from` onto `to` one by one. */
  function Poured(from: seq<nat>, to: seq<nat>, n: nat): (s: seq<nat>)
    requires n <= |from|
    ensures |s| == n + |to|
  {
    if n == 0 then to else [from[n - 1]] + Poured(from, to, n - 1)
  }

  lemma {:induction false} PouredAt(from: seq<nat>, to: seq<nat>, n: nat, i: nat)
    requires n <= |from| && i < n + |to|
    ensures Poured(from, to, n)[i] == if i < n then from[n - 1 - i] else to[i - n]
    decreases n
  {
    if n > 0 && i > 0 {
      PouredAt(from, to, n - 1, i - 1);
    }
  }

  // ------------------------------------------------------------------
  // The caches
  // ------------------------------------------------------------------

  class SimpleCache {
    var links: Links
    var heads: Heads
    var counts: map<Key, nat>
    ghost var lists: Lists
    ghost var place: Places
    ghost var kinds: map<nat, nat>

    /** What holds at every point inside an operation. */
    ghost predicate Holds()
      reads this
    {
      ChainsOk(links, heads, lists) && PlacesOk(lists, place) && CountsOk(counts, lists) && KindsOk(place, kinds)
      && HeadersOk(links, place, kinds)
    }

    /** The requested sizes of the live blocks, as their headers say. */
    ghost function Sizes(): map<nat, nat>
      reads this
    {
      LiveSizes(links, place)
    }

    /** What holds between operations. */
    ghost predicate Valid()
      reads this
    {
      Holds() && Bounded(lists)
    }

    constructor ()
      ensures Valid() && lists == map[] && place == map[]
    {
      links, heads, counts, lists, place, kinds := map[], map[], map[], map[], map[], map[];
    }

    /** Put a block on a local list. */
    method Push(t: nat, c: nat, b: nat)
      requires Holds() && b != 0 && (b in place ==> !place[b].In? && kinds[b] == c)
      modifies this
      ensures Holds()
      ensures lists == old(lists)[Local(t, c) := [b] + old(ListAt(lists, Local(t, c)))]
      ensures place == old(place)[b := In(Local(t, c))] && kinds == old(kinds)[b := c]
      ensures Sizes() == old(Sizes()) - {b}
    {
      hide Linked, ChainsOk, PlacesOk, CountsOk, KindsOk, HeadersOk, LiveSizes;
      var k := Local(t, c);
      HeadersKept(links, place, kinds, b, Num(heads, k), In(k), c);
      SizesMove(links, place, b, Num(heads, k), In(k));
      CountsKept(counts, lists, k, [b] + ListAt(lists, k));
      KindsKept(place, kinds, b, In(k), c);
      CountIs(counts, lists, k);
      PushChains(links, heads, lists, place, k, b);
      PushPlaces(lists, place, k, b);
      links := links[b := Num(heads, k)];
      heads := heads[k := b];
      counts := counts[k := Num(counts, k) + 1];
      lists := lists[k := [b] + ListAt(lists, k)];
      place := place[b := In(k)];
      kinds := kinds[b := c];
    }

    /** Take the first block of a local list and write its size over the link. */
    method PopLocal(t: nat, c: nat, size: nat) returns (b: nat)
      requires Holds() && Num(heads, Local(t, c)) != 0 && Fits(c, size)
      modifies this
      ensures Holds() && old(ListAt(lists, Local(t, c))) != [] && b == old(ListAt(lists, Local(t, c)))[0] && b != 0
      ensures lists == old(lists)[Local(t, c) := old(ListAt(lists, Local(t, c)))[1..]]
      ensures b in old(place) && old(place)[b] == In(Local(t, c)) && place == old(place)[b := Live]
              && kinds == old(kinds)
      ensures Sizes() == old(Sizes())[b := size]
    {
      hide Linked, PlacesOk, CountsOk, KindsOk, HeadersOk, LiveSizes, Fits;
      var k := Local(t, c);
      PopChains(links, heads, lists, place, k, size);
      PopPlaces(lists, place, k, Live) by { ListDistinct(links, heads, lists, k); }
      b := heads[k];
      hide ChainsOk;
      CountsKept(counts, lists, k, ListAt(lists, k)[1..]);
      CountIs(counts, lists, k);
      KindsKept(place, kinds, b, Live, if b in kinds then kinds[b] else c);
      KindOf(place, kinds, b);
      HeadersKept(links, place, kinds, b, size, Live, c);
      SizesMove(links, place, b, size, Live);
      heads := heads[k := links[b]];
      counts := counts[k := Num(counts, k) - 1];
      links := links[b := size];
      lists := lists[k := ListAt(lists, k)[1..]];
      place := place[b := Live];
    }

    /** The global `pop` by thread `t`, as one step. */
    method PopGlobal(t: nat, c: nat) returns (b: nat)
      requires Holds()
      modifies this
      ensures Holds() && (b == 0 <==> old(ListAt(lists, Global(c))) == [])
      ensures b == 0 ==> lists == old(lists) && place == old(place)
      ensures b != 0 ==> old(ListAt(lists, Global(c))) != [] && b == old(ListAt(lists, Global(c)))[0]
                         && lists == old(lists)[Global(c) := old(ListAt(lists, Global(c)))[1..]]
                         && b in old(place) && old(place)[b] == In(Global(c)) && place == old(place)[b := Held(t, c)]
      ensures kinds == old(kinds) && Sizes() == old(Sizes())
    {
      hide Linked, PlacesOk, CountsOk, KindsOk, HeadersOk, LiveSizes;
      var k := Global(c);
      b := Num(heads, k);
      LinkedHead(links, b, ListAt(lists, k));
      if b != 0 {
        PopChains(links, heads, lists, place, k, links[b]) by { GlobalHead(links, heads, lists, c); }
        PopPlaces(lists, place, k, Held(t, c)) by { ListDistinct(links, heads, lists, k); }
        assert links[b := links[b]] == links;
        hide ChainsOk;
        GlobalKeepsCounts(counts, lists, c, ListAt(lists, k)[1..]);
        KindOf(place, kinds, b);
        KindsKept(place, kinds, b, Held(t, c), c);
        HeadersKept(links, place, kinds, b, links[b], Held(t, c), c);
        SizesMove(links, place, b, links[b], Held(t, c));
        NotALiveSize(links, place, b);
        heads := heads[k := links[b]];
        lists := lists[k := ListAt(lists, k)[1..]];
        place := place[b := Held(t, c)];
      }
    }

    /** `pop_batch`: move up to `n` blocks from the global to a local list. */
    method PopBatch(t: nat, c: nat, n: nat) returns (moved: nat)
      requires Holds()
      modifies this
      ensures Holds() && kinds == old(kinds)
      ensures moved == Min(n, |old(ListAt(lists, Global(c)))|)
      ensures Takes(old(lists), lists, t, c, moved)
      ensures place.Keys == old(place.Keys) && SameLive(old(place), place, 0) && Sizes() == old(Sizes())
    {
      hide ChainsOk, PlacesOk, CountsOk, KindsOk, HeadersOk, LiveSizes;
      moved := 0;
      TakesNothing(lists, t, c);
      while moved < n
        invariant Holds() && kinds == old(kinds) && moved <= n
        invariant Takes(old(lists), lists, t, c, moved)
        invariant place.Keys == old(place.Keys) && SameLive(old(place), place, 0) && Sizes() == old(Sizes())
      {
        ghost var lists0, place0, kinds0 := lists, place, kinds;
        var b := PopGlobal(t, c);
        if b == 0 {
          break;
        }
        KindOf(place0, kinds0, b);
        NotALiveSize(links, place, b);
        Push(t, c, b);
        TakesOne(old(lists), lists0, lists, t, c, moved, b);
        moved := moved + 1;
      }
    }

    /** Cut a fresh page into blocks: all but the first go on the local list. */
    method Refill(t: nat, c: nat, size: nat, base: nat) returns (b: nat)
      requires Holds() && base > 0 && Fits(c, size) && BlocksPerPage(c) > 1 && ListAt(lists, Local(t, c)) == []
      requires forall x :: x in place ==> !(base <= x < base + PAGE_SIZE)
      modifies this
      ensures Holds() && b == base
      ensures lists == old(lists)[Local(t, c) := Stacked(base + BlockSize(c), BlockSize(c), BlocksPerPage(c) - 1)]
      ensures place.Keys == old(place.Keys) + Row(base + BlockSize(c), BlockSize(c), BlocksPerPage(c) - 1) + {base}
      ensures forall x :: x in old(place) ==> place[x] == old(place)[x]
      ensures base !in old(place) && place[base] == Live && kinds[base] == c && Sizes() == old(Sizes())[base := size]
    {
      hide ChainsOk, PlacesOk, CountsOk, KindsOk, BlocksPerPage, BlockSize, Row, Stacked, HeadersOk, LiveSizes, Fits;
      var step, n := BlockSize(c), BlocksPerPage(c);
      FitsClass(c, size);
      PageFits(c);
      assert PlacesApart(place, base);
      RowStart(base + step, step);
      var i := 1;
      while i < n
        invariant 1 <= i <= n && Holds()
        invariant ListAt(lists, Local(t, c)) == Stacked(base + step, step, i - 1)
        invariant lists == if i == 1 then old(lists) else old(lists)[Local(t, c) := Stacked(base + step, step, i - 1)]
        invariant place.Keys == old(place.Keys) + Row(base + step, step, i - 1)
        invariant forall x :: x in old(place) ==> place[x] == old(place)[x]
        invariant Sizes() == old(Sizes())
      {
        RowNext(old(place), base, step, i, n);
        RowGrows(base, step, i);
        NotALiveSize(links, place, base + i * step);
        Push(t, c, base + i * step);
        i := i + 1;
      }
      RowBelow(base + step, step, n - 1);
      KindsKept(place, kinds, base, Live, c);
      LiveIsListed(lists, place, base);
      WriteChains(links, heads, lists, place, base, size);
      HeadersKept(links, place, kinds, base, size, Live, c);
      SizesMove(links, place, base, size, Live);
      links := links[base := size];
      place := place[base := Live];
      kinds := kinds[base := c];
      b := base;
    }

    /** Move the first half of a local list to the global list in one piece. */
    method Flush(t: nat, c: nat)
      requires Holds() && Num(counts, Local(t, c)) >= 2
      modifies this
      ensures Holds() && kinds == old(kinds)
      ensures var list := old(ListAt(lists, Local(t, c)));
              lists == old(lists)[Local(t, c) := list[|list| / 2..]][Global(c) :=
                  list[..|list| / 2] + old(ListAt(lists, Global(c)))]
      ensures place.Keys == old(place.Keys) && SameLive(old(place), place, 0) && Sizes() == old(Sizes())
    {
      hide ChainsOk, PlacesOk, CountsOk, KindsOk, Linked, HeadersOk, LiveSizes;
      var k, g := Local(t, c), Global(c);
      ghost var list := ListAt(lists, k);
      CountIs(counts, lists, k);
      ChainAt(links, heads, lists, k);
      var n := counts[k] / 2;
      var head := heads[k];
      var tail, walked := head, 1;
      LinkedWalk(links, head, list, 0);
      while walked < n && tail != 0
        invariant 1 <= walked <= n && tail == list[walked - 1] && tail != 0
        invariant links == old(links) && heads == old(heads) && counts == old(counts)
        invariant lists == old(lists) && place == old(place) && kinds == old(kinds)
      {
        LinkedWalk(links, head, list, walked - 1);
        LinkedWalk(links, head, list, walked);
        tail := links[tail];
        walked := walked + 1;
      }
      LinkedWalk(links, head, list, n - 1);
      FlushChains(links, heads, lists, place, t, c, n);
      FlushPlaces(lists, place, t, c, n);
      FlushHeaders(links, lists, place, kinds, t, c, n, Num(heads, g));
      FlushKinds(place, kinds, list[..n], c) by { FlushedKinds(lists, place, kinds, t, c, n); }
      CountsKept(counts, lists, k, list[n..]);
      GlobalKeepsCounts(counts[k := |list| - n], lists[k := list[n..]], c, list[..n] + ListAt(lists, g));
      var rest := links[tail];
      heads := heads[k := rest];
      counts := counts[k := counts[k] - n];
      links := links[tail := Num(heads, g)];
      heads := heads[g := head];
      lists := lists[k := list[n..]][g := list[..n] + ListAt(lists, g)];
      place := Rehomed(place, list[..n], In(g));
    }

    /** `alloc` by thread `t`.  `page` and `run` are the answers of the page source
        to a one-page and to a one-block request. */
    method Alloc(t: nat, size: nat, page: Option<nat>, run: Option<nat>) returns (b: nat)
      requires Valid() && 1 <= size <= MAX_CACHE_SIZE
      requires page.Some? ==> page.value > 0 && forall x :: x in place ==> !(page.value <= x < page.value + PAGE_SIZE)
      requires run.Some? ==> run.value > 0 && run.value !in place
      modifies this
      ensures Valid()
      ensures var c := ClassFor(CacheSize(size));
              && Fits(c, size)
              && (b == 0 <==> old(ListAt(lists, Local(t, c))) == [] && old(ListAt(lists, Global(c))) == []
                              && (BlocksPerPage(c) <= 1 || page == None) && run == None)
              && (b != 0 ==> b in place && place[b] == Live && kinds[b] == c)
              && place.Keys == old(place.Keys) + Added(old(lists), t, c, page, run)
              && ServedFrom(old(lists), lists, t, c, page, b)
      ensures Sizes() == if b == 0 then old(Sizes()) else old(Sizes())[b := size]
      ensures b == 0 ==> place == old(place) && lists == old(lists)
      ensures SameLive(old(place), place, b) && (b in old(place) ==> !old(place)[b].Live?)
    {
      hide ChainsOk, PlacesOk, CountsOk, KindsOk, BlocksPerPage, BlockSize, Linked, Row, Stacked, Takes, Poured,
          HeadersOk, LiveSizes, Fits, ClassFor, CacheSize;
      var c := ClassFor(CacheSize(size));
      var k := Local(t, c);
      RequestFits(size);
      ChainAt(links, heads, lists, k);
      ChainAt(links, heads, lists, Global(c));
      ZeroNotPlaced(lists, place);
      if Num(heads, k) != 0 {
        b := PopLocal(t, c, size);
        KindOf(old(place), kinds, b);
        return;
      }
      if Num(heads, Global(c)) != 0 {
        var moved := PopBatch(t, c, GLOBAL_FREE_BATCH);
        TakesFacts(old(lists), lists, t, c, moved);
        ChainAt(links, heads, lists, k);
        ghost var lists1, place1 := lists, place;
        if moved > 0 {
          b := PopLocal(t, c, size);
          BatchBounded(old(lists), lists1, lists, t, c, moved);
          assert HeadTaken(lists1, lists, k, b);
          BatchBlock(old(lists), lists1, old(place), place1, old(kinds), t, c, b);
          return;
        }
      }
      if BlocksPerPage(c) > 1 && page.Some? {
        b := Refill(t, c, size, page.value);
        RefillBounded(old(lists), t, c, page.value) by { FitsClass(c, size); }
        return;
      }
      if run.Some? {
        b := run.value;
        KindsKept(place, kinds, b, Live, c);
        LiveIsListed(lists, place, b);
        WriteChains(links, heads, lists, place, b, size);
        HeadersKept(links, place, kinds, b, size, Live, c);
        SizesMove(links, place, b, size, Live);
        links := links[b := size];
        place := place[b := Live];
        kinds := kinds[b := c];
        return;
      }
      b := 0;
    }

    /** `dealloc` by thread `t`, whoever allocated the block: the header gives the
        class. */
    method Dealloc(t: nat, b: nat)
      requires Valid() && b in place && place[b] == Live
      modifies this
      ensures Valid() && kinds == old(kinds)
      ensures place.Keys == old(place.Keys) && SameLive(old(place), place, b) && place[b].In?
      ensures b in kinds && var c := kinds[b];
              var list, global := [b] + old(ListAt(lists, Local(t, c))), old(ListAt(lists, Global(c)));
              lists == if |list| >= MAX_FREE_LIST_LENGTH
                       then old(lists)[Local(t, c) := list[|list| / 2..]][Global(c) := list[..|list| / 2] + global]
                       else old(lists)[Local(t, c) := list]
      ensures Sizes() == old(Sizes()) - {b}
    {
      hide ChainsOk, PlacesOk, CountsOk, KindsOk, Linked, HeadersOk, LiveSizes, ClassFor, CacheSize;
      HeaderClass(links, place, kinds, b);
      ZeroNotPlaced(lists, place);
      var c := ClassFor(CacheSize(links[b]));
      KindOf(place, kinds, b);
      Push(t, c, b);
      CountIs(counts, lists, Local(t, c));
      if Num(counts, Local(t, c)) >= MAX_FREE_LIST_LENGTH {
        Flush(t, c);
      }
    }
  }

  lemma FitsClass(c: nat, size: nat)
    requires Fits(c, size)
    ensures c < NUM_CLASSES
  {
  }

  function Min(a: nat, b: nat): nat { if a < b then a else b }

  /** The first `n` blocks of the global list moved, one by one, to the local. */
  ghost predicate Takes(lists: Lists, lists': Lists, t: nat, c: nat, n: nat) {
    && n <= |ListAt(lists, Global(c))|
    && ListAt(lists', Global(c)) == ListAt(lists, Global(c))[n..]
    && ListAt(lists', Local(t, c)) == Poured(ListAt(lists, Global(c)), ListAt(lists, Local(t, c)), n)
    && forall k :: k != Global(c) && k != Local(t, c) ==> ListAt(lists', k) == ListAt(lists, k)
  }

  lemma TakesNothing(lists: Lists, t: nat, c: nat)
    ensures Takes(lists, lists, t, c, 0)
  {
  }

  lemma TakesOne(lists: Lists, lists1: Lists, lists2: Lists, t: nat, c: nat, n: nat, b: nat)
    requires Takes(lists, lists1, t, c, n) && ListAt(lists1, Global(c)) != [] && b == ListAt(lists1, Global(c))[0]
    requires var g := lists1[Global(c) := ListAt(lists1, Global(c))[1..]];
             lists2 == g[Local(t, c) := [b] + ListAt(g, Local(t, c))]
    ensures Takes(lists, lists2, t, c, n + 1)
  {
    var g := ListAt(lists, Global(c));
    assert g[n..][1..] == g[n + 1..];
  }

  /** Where an allocation takes its block: the front of the local list; else the
      last of a batch of up to 128 moved over from the global list; else a page
      whose other blocks fill the local list. */
  ghost predicate ServedFrom(lists: Lists, lists': Lists, t: nat, c: nat, page: Option<nat>, b: nat) {
    var k, local, global := Local(t, c), ListAt(lists, Local(t, c)), ListAt(lists, Global(c));
    if local != [] then b == local[0] && lists' == lists[k := local[1..]]
    else if global != [] then
      exists mid :: Takes(lists, mid, t, c, Min(GLOBAL_FREE_BATCH, |global|)) && HeadTaken(mid, lists', k, b)
    else if BlocksPerPage(c) > 1 && page.Some? then
      b == page.value && lists' == lists[k := Stacked(page.value + BlockSize(c), BlockSize(c), BlocksPerPage(c) - 1)]
    else lists' == lists
  }

  ghost predicate HeadTaken(lists: Lists, lists': Lists, k: Key, b: nat) {
    var list := ListAt(lists, k);
    list != [] && b == list[0] && lists' == lists[k := list[1..]]
  }

  /** The blocks a call adds: a page's worth, a single one, or none. */
  function Added(lists: Lists, t: nat, c: nat, page: Option<nat>, run: Option<nat>): set<nat> {
    if ListAt(lists, Local(t, c)) != [] || ListAt(lists, Global(c)) != [] then {}
    else if BlocksPerPage(c) > 1 && page.Some? then
      Row(page.value + BlockSize(c), BlockSize(c), BlocksPerPage(c) - 1) + {page.value}
    else if run.Some? then {run.value}
    else {}
  }

  lemma PageFits(c: nat)
    requires c < NUM_CLASSES
    ensures BlockSize(c) > 0 && BlocksPerPage(c) * BlockSize(c) <= PAGE_SIZE
  {
    ClassGeometry(c);
  }

  ghost predicate PlacesApart(place: Places, base: nat) {
    forall x :: x in place ==> !(base <= x < base + PAGE_SIZE)
  }

  lemma RowStart(base: nat, size: nat)
    ensures Row(base, size, 0) == {} && Stacked(base, size, 0) == []
  {
  }

  lemma RowGrows(base: nat, size: nat, i: nat)
    requires i >= 1
    ensures Row(base + size, size, i) == Row(base + size, size, i - 1) + {base + i * size}
    ensures Stacked(base + size, size, i) == [base + i * size] + Stacked(base + size, size, i - 1)
  {
    Distribute(i, 1, size);
  }

  /** The next block of a page is new. */
  lemma RowNext(place: Places, base: nat, size: nat, i: nat, n: nat)
    requires size > 0 && 1 <= i < n && n * size <= PAGE_SIZE && PlacesApart(place, base)
    ensures base + i * size !in place.Keys + Row(base + size, size, i - 1)
  {
    RowBelow(base + size, size, i - 1);
    Distribute(i, 1, size);
    Distribute(n, i, size);
    MulAtLeast(n - i, size);
    assert i * size >= 0;
  }

  /** A new block with the program is on no list. */
  lemma LiveIsListed(lists: Lists, place: Places, b: nat)
    requires PlacesOk(lists, place) && b !in place && b != 0
    ensures PlacesOk(lists, place[b := Live])
  {
    forall k, x
      ensures x in ListAt(lists, k) <==> x in place[b := Live] && place[b := Live][x] == In(k)
    {
      assert x in ListAt(lists, k) <==> x in place && place[x] == In(k);
    }
  }

  lemma ZeroNotPlaced(lists: Lists, place: Places)
    requires PlacesOk(lists, place)
    ensures 0 !in place
  {
  }

  lemma ChainAt(links: Links, heads: Heads, lists: Lists, k: Key)
    requires ChainsOk(links, heads, lists)
    ensures Linked(links, Num(heads, k), ListAt(lists, k))
    ensures Num(heads, k) == 0 <==> ListAt(lists, k) == []
  {
  }

  /** Each block of the walk is there, and leads to the next. */
  lemma LinkedWalk(links: Links, head: nat, list: seq<nat>, i: nat)
    requires Linked(links, head, list) && i < |list|
    ensures head == list[0] && list[i] != 0 && list[i] in links
    ensures i + 1 < |list| ==> links[list[i]] == list[i + 1]
  {
    LinkedAt(links, head, list, i);
  }

  // ------------------------------------------------------------------
  // Flushing
  // ------------------------------------------------------------------

  /** The blocks of `batch` all go to one place. */
  function Rehomed(place: Places, batch: seq<nat>, where: Place): (p: Places)
    ensures p.Keys == place.Keys
  {
    map x | x in place :: if x in batch then where else place[x]
  }

  lemma FlushChains(links: Links, heads: Heads, lists: Lists, place: Places, t: nat, c: nat, n: nat)
    requires ChainsOk(links, heads, lists) && PlacesOk(lists, place) && 0 < n <= |ListAt(lists, Local(t, c))|
    ensures var k, g := Local(t, c), Global(c);
            var list := ListAt(lists, k);
            var tail := list[n - 1];
            tail in links
            && ChainsOk(links[tail := Num(heads, g)], heads[k := links[tail]][g := Num(heads, k)],
                        lists[k := list[n..]][g := list[..n] + ListAt(lists, g)])
  {
    hide Linked;
    var k, g := Local(t, c), Global(c);
    var list, global := ListAt(lists, k), ListAt(lists, g);
    var tail := list[n - 1];
    ChainAt(links, heads, lists, k);
    ChainAt(links, heads, lists, g);
    LinkedRest(links, Num(heads, k), list, n);
    ListsDisjoint(lists, place, k, g);
    LinkedJoin(links, Num(heads, k), list, n, Num(heads, g), global);
    assert tail in list;
    assert tail in place && place[tail] == In(k);
    var links', heads', lists' := links[tail := Num(heads, g)], heads[k := links[tail]][g := Num(heads, k)],
        lists[k := list[n..]][g := list[..n] + global];
    forall j
      ensures Linked(links', Num(heads', j), ListAt(lists', j))
    {
      if j == k {
        TailNotInRest(links, heads, lists, k, n);
        LinkedFrame(links, links[tail], list[n..], tail, Num(heads, g));
      } else if j != g {
        ChainAt(links, heads, lists, j);
        assert tail !in ListAt(lists, j);
        LinkedFrame(links, Num(heads, j), ListAt(lists, j), tail, Num(heads, g));
      }
    }
  }

  lemma TailNotInRest(links: Links, heads: Heads, lists: Lists, k: Key, n: nat)
    requires ChainsOk(links, heads, lists) && 0 < n <= |ListAt(lists, k)|
    ensures ListAt(lists, k)[n - 1] !in ListAt(lists, k)[n..]
  {
    ListDistinct(links, heads, lists, k);
  }

  lemma ListsDisjoint(lists: Lists, place: Places, j: Key, k: Key)
    requires PlacesOk(lists, place) && j != k
    ensures forall x :: x in ListAt(lists, j) && x in ListAt(lists, k) ==> false
  {
    forall x | x in ListAt(lists, j)
      ensures x !in ListAt(lists, k)
    {
      assert x in place && place[x] == In(j);
    }
  }

  lemma FlushPlaces(lists: Lists, place: Places, t: nat, c: nat, n: nat)
    requires PlacesOk(lists, place) && n <= |ListAt(lists, Local(t, c))| && Distinct(ListAt(lists, Local(t, c)))
    ensures var k, g, list := Local(t, c), Global(c), ListAt(lists, Local(t, c));
            && PlacesOk(lists[k := list[n..]][g := list[..n] + ListAt(lists, g)], Rehomed(place, list[..n], In(g)))
            && SameLive(place, Rehomed(place, list[..n], In(g)), 0)
  {
    var k, g, list := Local(t, c), Global(c), ListAt(lists, Local(t, c));
    var lists', place' := lists[k := list[n..]][g := list[..n] + ListAt(lists, g)], Rehomed(place, list[..n], In(g));
    Halves(list, n);
    hide Distinct;
    forall x
      ensures x in list <==> x in place && place[x] == In(k)
    {
      assert x in ListAt(lists, k) <==> x in place && place[x] == In(k);
    }
    forall j, x
      ensures x in ListAt(lists', j) <==> x in place' && place'[x] == In(j)
    {
      assert x in ListAt(lists, j) <==> x in place && place[x] == In(j);
    }
  }

  lemma FlushHeaders(links: Links, lists: Lists, place: Places, kinds: map<nat, nat>, t: nat, c: nat, n: nat, v: nat)
    requires PlacesOk(lists, place) && HeadersOk(links, place, kinds) && 0 < n <= |ListAt(lists, Local(t, c))|
    ensures var list := ListAt(lists, Local(t, c));
            var links', place' := links[list[n - 1] := v], Rehomed(place, list[..n], In(Global(c)));
            HeadersOk(links', place', kinds) && LiveSizes(links', place') == LiveSizes(links, place)
  {
    hide Fits, LiveSizes;
    var list := ListAt(lists, Local(t, c));
    forall x | x in list[..n]
      ensures x in place && place[x] == In(Local(t, c))
    {
      assert x in ListAt(lists, Local(t, c));
    }
    assert list[n - 1] == list[..n][n - 1] && list[n - 1] in list[..n];
    SizesFlush(links, place, list[..n], In(Global(c)), list[n - 1], v);
  }

  lemma Halves(list: seq<nat>, n: nat)
    requires n <= |list| && Distinct(list)
    ensures forall x :: x in list <==> x in list[..n] || x in list[n..]
    ensures forall x :: x in list[..n] ==> x !in list[n..]
  {
    assert list == list[..n] + list[n..];
    forall x | x in list[..n]
      ensures x !in list[n..]
    {
      var i :| 0 <= i < n && list[i] == x;
      assert forall j :: 0 <= j < |list[n..]| ==> list[n..][j] == list[n + j];
    }
  }

  lemma FlushKinds(place: Places, kinds: map<nat, nat>, batch: seq<nat>, c: nat)
    requires KindsOk(place, kinds) && forall x :: x in batch ==> x in kinds && kinds[x] == c
    ensures KindsOk(Rehomed(place, batch, In(Global(c))), kinds)
  {
  }

  lemma FlushedKinds(lists: Lists, place: Places, kinds: map<nat, nat>, t: nat, c: nat, n: nat)
    requires PlacesOk(lists, place) && KindsOk(place, kinds) && n <= |ListAt(lists, Local(t, c))|
    ensures forall x :: x in ListAt(lists, Local(t, c))[..n] ==> x in kinds && kinds[x] == c
  {
    forall x | x in ListAt(lists, Local(t, c))[..n]
      ensures x in kinds && kinds[x] == c
    {
      assert x in ListAt(lists, Local(t, c));
    }
  }

  // ------------------------------------------------------------------
  // Bounds
  // ------------------------------------------------------------------

  lemma TakesFacts(lists: Lists, lists': Lists, t: nat, c: nat, n: nat)
    requires Takes(lists, lists', t, c, n) && ListAt(lists, Local(t, c)) == []
    ensures |ListAt(lists', Local(t, c))| == n
  {
  }

  lemma BatchBounded(lists: Lists, lists1: Lists, lists2: Lists, t: nat, c: nat, n: nat)
    requires Bounded(lists) && Takes(lists, lists1, t, c, n) && 0 < n <= GLOBAL_FREE_BATCH
             && ListAt(lists, Local(t, c)) == []
    requires ListAt(lists1, Local(t, c)) != [] && lists2 == lists1[Local(t, c) := ListAt(lists1, Local(t, c))[1..]]
    ensures Bounded(lists2)
  {
    TakesFacts(lists, lists1, t, c, n);
    hide Poured;
    forall k: Key | k.Local?
      ensures |ListAt(lists2, k)| < MAX_FREE_LIST_LENGTH
    {
      assert k != Local(t, c) ==> ListAt(lists2, k) == ListAt(lists, k);
    }
  }

  lemma RefillBounded(lists: Lists, t: nat, c: nat, base: nat)
    requires Bounded(lists) && c < NUM_CLASSES && BlocksPerPage(c) > 1
    ensures Bounded(lists[Local(t, c) := Stacked(base + BlockSize(c), BlockSize(c), BlocksPerPage(c) - 1)])
  {
    assert BlocksPerPage(c) <= PAGE_SIZE by { ClassGeometry(c); ManyBlocks(BlocksPerPage(c), BlockSize(c)); }
    hide Stacked, BlocksPerPage, BlockSize;
  }

  lemma ManyBlocks(n: nat, size: nat)
    requires size >= 1
    ensures n <= n * size
  {
  }

  /** The block handed out after a batch was idle in the global list. */
  lemma BatchBlock(lists: Lists, lists1: Lists, place: Places, place1: Places, kinds: map<nat, nat>, t: nat, c: nat,
      b: nat)
    requires KindsOk(place1, kinds) && place1.Keys == place.Keys && SameLive(place, place1, 0)
    requires b != 0 && b in place1 && place1[b] == In(Local(t, c))
    ensures b in place && !place[b].Live? && b in kinds && kinds[b] == c
  {
  }

  lemma CountIs(counts: map<Key, nat>, lists: Lists, k: Key)
    requires CountsOk(counts, lists) && k.Local?
    ensures Num(counts, k) == |ListAt(lists, k)|
  {
  }

  lemma KindOf(place: Places, kinds: map<nat, nat>, b: nat)
    requires KindsOk(place, kinds) && b in place
    ensures b in kinds && kinds[b := kinds[b]] == kinds && (place[b].In? ==> place[b].k.c == kinds[b])
  {
  }

  lemma ListDistinct(links: Links, heads: Heads, lists: Lists, k: Key)
    requires ChainsOk(links, heads, lists)
    ensures Distinct(ListAt(lists, k))
  {
    assert Linked(links, Num(heads, k), ListAt(lists, k));
  }

  lemma GlobalHead(links: Links, heads: Heads, lists: Lists, c: nat)
    requires ChainsOk(links, heads, lists)
    ensures Num(heads, Global(c)) != 0 ==> Num(heads, Global(c)) in links
  {
    assert Linked(links, Num(heads, Global(c)), ListAt(lists, Global(c)));
  }
}
