/** The allocator's entry points over byte memory: allocation, release, size
    lookup, and the C functions built on them.

    Which idle block a magazine yields and which pages the page source maps are
    answers handed in with each call; the magazine protocol that produces the
    former is the subject of the magazine modules. */
module CApi {
  import opened Bits
  import opened Common
  import opened BlockLayout
  import opened ByteMemory
  import opened Space
  import opened SpaceSteps

  /** What one `alloc` call is answered: a block from the thread's magazines or
      the pool, one page to carve, a run of pages for one block or mapping. */
  datatype Answers = Answers(cached: Option<nat>, page: Option<nat>, run: Option<nat>)

  /** What a release did. */
  datatype Freed = Nothing | ToClass(block: nat, index: nat) | Unmapped(base: nat, pages: nat) | Kept(base: nat)

  predicate Cacheable(size: nat, align: nat) {
    1 <= size <= MAX_CACHE_SIZE && align <= 8
  }

  lemma ClassForFits(size: nat)
    requires 1 <= size <= MAX_CACHE_SIZE
    ensures SmallRequest(ClassFor(size), size)
    ensures SizeToClass(CacheSize(size)) == Some(ClassFor(size)) && CacheSize(size) == ClassSize(ClassFor(size))
  {
    hide SizeToClass, Pow2, CacheSize, ClassSize;
    FitsBelow63(size);
    SizeToClassIsLeastFit(size);
    ClassIsStable(size);
  }

  /** Pages asked for in one run. */
  function RunPages(size: nat, align: nat): nat {
    if Cacheable(size, align) then PagesForBlock(ClassFor(size)) else LargePages(size, align)
  }

  /** Answers come from idle blocks of the class and from fresh pages. */
  ghost predicate Honest(s: Space, size: nat, align: nat, ans: Answers) {
    && (ans.cached.Some? && Cacheable(size, align) ==>
        ans.cached.value in s.blocks && s.blocks[ans.cached.value] == Idle(ClassFor(size)))
    && (ans.page.Some? ==> FreshPages(s.mem, ans.page.value, 1))
    && (ans.run.Some? ==> FreshPages(s.mem, ans.run.value, RunPages(size, align)))
  }

  /** The call must fail. */
  predicate Refused(size: nat, align: nat, ans: Answers) {
    || size == 0
    || (ans.run == None && !(Cacheable(size, align) && (ans.cached.Some?
        || (BlocksPerPage(ClassFor(size)) > 1 && ans.page.Some?))))
  }

  /** A run always serves; a cached block or a page do where the request is small;
      and nothing comes from nowhere. */
  lemma RefusedOnly(size: nat, align: nat, ans: Answers)
    ensures size > 0 && ans.run.Some? ==> !Refused(size, align, ans)
    ensures Cacheable(size, align) && ans.cached.Some? ==> !Refused(size, align, ans)
    ensures Cacheable(size, align) && size <= 1024 && ans.page.Some? ==> !Refused(size, align, ans)
    ensures ans == Answers(None, None, None) ==> Refused(size, align, ans)
    ensures !Cacheable(size, align) && ans.run == None ==> Refused(size, align, ans)
    ensures size > 1024 && ans.cached == None && ans.run == None && size < Pow2(63) ==> Refused(size, align, ans)
  {
    hide BlocksPerPage, ClassFor, Pow2;
    if Cacheable(size, align) {
      PageServes(size);
    }
  }

  /** A page is cut for requests of up to 1024 bytes. */
  lemma PageServes(size: nat)
    requires 1 <= size <= MAX_CACHE_SIZE
    ensures BlocksPerPage(ClassFor(size)) > 1 <==> size <= 1024
  {
    hide BlocksPerPage, SizeToClass, BlockSize, PagesForBlock, Refill, Overflow, Pow2, CacheSize, ClassSize;
    FitsBelow63(size);
    SizeToClassIsLeastFit(size);
    var c := ClassFor(size);
    ClassGeometry(c);
    ClassSizeValue(c);
    ClassSizeValue(6);
  }

  /** The address space after a successful call. */
  function After(s: Space, size: nat, align: nat, ans: Answers): Space {
    var c := ClassFor(size);
    if Cacheable(size, align) then
      if ans.cached.Some? then TakeIdle(s, ans.cached.value, c, size)
      else if BlocksPerPage(c) > 1 && ans.page.Some? then
        PageCarved(s, ans.page.value, c, size)
      else if ans.run.Some? then NewSmall(s, ans.run.value, PagesForBlock(c), c, size)
      else s
    else if ans.run.Some? then NewLarge(s, ans.run.value, size, align)
    else s
  }

  /** The start of the new block. */
  function Start(size: nat, align: nat, ans: Answers): nat {
    if Cacheable(size, align) && ans.cached.Some? then ans.cached.value
    else if Cacheable(size, align) && BlocksPerPage(ClassFor(size)) > 1 && ans.page.Some? then ans.page.value
    else if ans.run.Some? then ans.run.value
    else 0
  }

  /** The request is served by carving a page. */
  predicate FromPage(size: nat, align: nat, ans: Answers) {
    Cacheable(size, align) && ans.cached == None && BlocksPerPage(ClassFor(size)) > 1 && ans.page.Some?
  }

  /** What the magazine is filled with when a page is carved. */
  function Spare(base: nat, c: nat): (s: seq<nat>)
    ensures |s| == Refill(c)
  {
    seq(Refill(c), i requires 0 <= i < Refill(c) => Nth(base, c, i + 1))
  }

  /** The blocks handed over for the magazine: exactly those that are new and idle,
      each once, all of one class. */
  ghost predicate HandsOver(s: Space, s': Space, c: nat, spare: seq<nat>) {
    && Distinct(spare)
    && (forall x :: x in spare <==> x in s'.blocks && x !in s.blocks && s'.blocks[x].Idle?)
    && (forall x :: x in spare ==> s'.blocks[x] == Idle(c))
  }

  /** What an allocation gives: the new pointer's block was not in use, is now,
      has the requested size, and every block in use before keeps its bytes. */
  ghost predicate Gives(s: Space, s': Space, p: nat, a: nat, size: nat, align: nat) {
    && align > 0 && p > 0 && p % 16 == 0 && p % align == 0
    && !InUse(s, a) && PointsTo(s', p, a) && Requested(s'.blocks[a]) == size
    && SpaceOk(s')
    && KeepsLive(s, s', 0)
  }

  // ------------------------------------------------------------------
  // Each path of `alloc`
  // ------------------------------------------------------------------

  lemma SmallAlign(p: nat, align: nat)
    requires p % 16 == 0 && IsPowerOfTwo(align) && align <= 8
    ensures align > 0 && p % align == 0
  {
    var k := PowerOfTwoExponent(align);
    Pow2Values();
    if k >= 4 { Pow2Monotone(4, k); }
    Pow2Add(k, 4 - k);
    MultipleOfFactor(p, align, Pow2(4 - k));
  }

  lemma SmallGives(s: Space, s': Space, a: nat, c: nat, size: nat, align: nat)
    requires SpaceOk(s') && KeepsLive(s, s', 0) && !InUse(s, a) && a in s'.blocks && s'.blocks[a] == Small(c, size)
    requires IsPowerOfTwo(align) && align <= 8
    ensures align > 0 && Gives(s, s', a + 16, a, size, align)
  {
    hide SpaceOk, KeepsLive, SizeToClass, IsPowerOfTwo;
    BlockAt(s', a);
    SmallAlign(a + 16, align);
  }

  lemma CachedGives(s: Space, size: nat, align: nat, ans: Answers)
    requires SpaceOk(s) && Honest(s, size, align, ans) && Cacheable(size, align) && ans.cached.Some?
             && IsPowerOfTwo(align)
    ensures align > 0 && Gives(s, After(s, size, align, ans), Start(size, align, ans) + 16, Start(size, align, ans),
            size, align)
  {
    hide SpaceOk, KeepsLive, Gives, IsPowerOfTwo, ClassFor, SizeToClass, FreshPages;
    ClassForFits(size);
    TakeIdleKeeps(s, ans.cached.value, ClassFor(size), size);
    SmallGives(s, After(s, size, align, ans), ans.cached.value, ClassFor(size), size, align);
  }

  function PageCarved(s: Space, base: nat, c: nat, size: nat): Space {
    var s1 := NewSmall(s, base, 1, c, size);
    Space(s1.mem, Carve(s1.blocks, base, c, Refill(c)))
  }

  lemma FreshStart(mem: Memory, base: nat, pages: nat)
    requires FreshPages(mem, base, pages)
    ensures base > 0 && base % 16 == 0
  {
    assert base == 4096 * (base / 4096);
  }

  lemma PageCarvedKeeps(s: Space, base: nat, c: nat, size: nat)
    requires SpaceOk(s) && FreshPages(s.mem, base, 1) && SmallRequest(c, size) && BlocksPerPage(c) > 1
    ensures var s' := PageCarved(s, base, c, size);
            SpaceOk(s') && KeepsLive(s, s', 0) && base in s'.blocks && s'.blocks[base] == Small(c, size)
                && base !in s.blocks
  {
    hide SpaceOk, KeepsLive, SizeToClass, NewSmall, Carve, BlockSize, BlocksPerPage, Refill, Unowned, Mapped, Nth,
        FreshPages;
    FreshStart(s.mem, base, 1);
    RefillFits(c, base);
    NewSmallKeeps(s, base, 1, c, size);
    NewSmallBlock(s, base, 1, c, size);
    var s1 := NewSmall(s, base, 1, c, size);
    CarveKeeps(s1, base, c, Refill(c), base + PAGE_SIZE);
    KeepsLiveTrans(s, s1, PageCarved(s, base, c, size), 0);
  }

  lemma PageHandsOver(s: Space, base: nat, c: nat, size: nat)
    requires SpaceOk(s) && FreshPages(s.mem, base, 1) && SmallRequest(c, size) && BlocksPerPage(c) > 1
    ensures HandsOver(s, PageCarved(s, base, c, size), c, Spare(base, c))
  {
    hide SpaceOk, KeepsLive, SizeToClass, NewSmall, Carve, BlockSize, BlocksPerPage, Refill, Unowned, Mapped, Nth,
        FreshPages;
    FreshStart(s.mem, base, 1);
    RefillFits(c, base);
    NewSmallKeeps(s, base, 1, c, size);
    var s1 := NewSmall(s, base, 1, c, size);
    NewSmallBlocks(s, base, 1, c, size);
    CarveAdds(s1, base, c, Refill(c), base + PAGE_SIZE, Spare(base, c));
  }

  lemma NewSmallBlocks(s: Space, base: nat, pages: nat, c: nat, size: nat)
    ensures NewSmall(s, base, pages, c, size).blocks == s.blocks[base := Small(c, size)]
  {
  }

  /** Every other path makes no idle block. */
  lemma OthersHandNothing(s: Space, size: nat, align: nat, ans: Answers)
    requires !FromPage(size, align, ans)
    ensures HandsOver(s, After(s, size, align, ans), ClassFor(size), [])
  {
    hide ClassFor, BlocksPerPage, PagesForBlock, LargePages, MapRange, Store, PageCarved, WriteLargeHeader,
        WritePageHeader, Bytes64, LargeUserAddr;
  }

  lemma AllocHandsOver(s: Space, size: nat, align: nat, ans: Answers)
    requires SpaceOk(s) && Honest(s, size, align, ans)
    ensures HandsOver(s, After(s, size, align, ans), ClassFor(size),
        if FromPage(size, align, ans) then Spare(ans.page.value, ClassFor(size)) else [])
  {
    hide SpaceOk, FreshPages, ClassFor, BlocksPerPage, PagesForBlock, TakeIdle, NewSmall, NewLarge, PageCarved, Spare,
        HandsOver;
    if FromPage(size, align, ans) {
      ClassForFits(size);
      PageHandsOver(s, ans.page.value, ClassFor(size), size);
    } else {
      OthersHandNothing(s, size, align, ans);
    }
  }

  lemma NothingHandedOver(s: Space, c: nat)
    ensures HandsOver(s, s, c, [])
  {
  }

  lemma PageGives(s: Space, size: nat, align: nat, ans: Answers)
    requires SpaceOk(s) && Honest(s, size, align, ans) && Cacheable(size, align) && IsPowerOfTwo(align)
    requires ans.cached == None && BlocksPerPage(ClassFor(size)) > 1 && ans.page.Some?
    ensures align > 0 && Gives(s, After(s, size, align, ans), Start(size, align, ans) + 16, Start(size, align, ans),
            size, align)
  {
    hide SpaceOk, KeepsLive, Gives, IsPowerOfTwo, ClassFor, SizeToClass, PageCarved, BlocksPerPage, FreshPages;
    var c, base := ClassFor(size), ans.page.value;
    ClassForFits(size);
    PageCarvedKeeps(s, base, c, size);
    SmallGives(s, PageCarved(s, base, c, size), base, c, size, align);
  }

  lemma NewSmallBlock(s: Space, base: nat, pages: nat, c: nat, size: nat)
    ensures base in NewSmall(s, base, pages, c, size).blocks
            && NewSmall(s, base, pages, c, size).blocks[base] == Small(c, size)
  {
  }

  /** The blocks that go to the magazine lie in the page. */
  lemma RefillFits(c: nat, base: nat)
    requires c < NUM_CLASSES && BlocksPerPage(c) > 1
    ensures BlockSize(c) <= PAGE_SIZE && Nth(base, c, Refill(c) + 1) <= base + PAGE_SIZE
            && Nth(base, c, 1) == base + BlockSize(c)
  {
    ClassGeometry(c);
    hide BlockSize;
    var n, k := Refill(c) + 1, BlocksPerPage(c);
    assert n <= k;
    Distribute(k, n, BlockSize(c));
    assert (k - n) * BlockSize(c) >= 0;
  }

  lemma RunGives(s: Space, size: nat, align: nat, ans: Answers)
    requires SpaceOk(s) && Honest(s, size, align, ans) && Cacheable(size, align) && IsPowerOfTwo(align)
    requires ans.cached == None && !(BlocksPerPage(ClassFor(size)) > 1 && ans.page.Some?) && ans.run.Some?
    ensures align > 0 && Gives(s, After(s, size, align, ans), Start(size, align, ans) + 16, Start(size, align, ans),
            size, align)
  {
    hide SpaceOk, KeepsLive, Gives, IsPowerOfTwo, ClassFor, SizeToClass, NewSmall, BlockSize, BlocksPerPage,
        PagesForBlock, Mapped, Unowned, FreshPages;
    var c, base := ClassFor(size), ans.run.value;
    ClassForFits(size);
    RunFits(c);
    NewSmallKeeps(s, base, PagesForBlock(c), c, size);
    NewSmallBlock(s, base, PagesForBlock(c), c, size);
    SmallGives(s, After(s, size, align, ans), base, c, size, align);
  }

  lemma RunFits(c: nat)
    requires c < NUM_CLASSES
    ensures BlockSize(c) <= PagesForBlock(c) * PAGE_SIZE
  {
    ClassGeometry(c);
  }

  lemma LargeGives(s: Space, size: nat, align: nat, base: nat)
    requires SpaceOk(s) && size >= 1 && ValidLayout(size, align) && FreshPages(s.mem, base, LargePages(size, align))
    ensures var s' := NewLarge(s, base, size, align);
            1 <= align < WORD && Gives(s, s', LargeUserAddr(base, align), base, size, align)
  {
    hide SpaceOk, KeepsLive, ValidLayout, LargePages, LargeUserAddr, FreshPages, BlockValid;
    NewLargeKeeps(s, base, size, align);
    LargeInside(base, LargePages(size, align), align, size);
  }

  /** Every call answered honestly fails exactly when it must, and otherwise
      gives what an allocation promises. */
  lemma AllocGives(s: Space, size: nat, align: nat, ans: Answers)
    requires SpaceOk(s) && Honest(s, size, align, ans) && ValidLayout(size, align) && !Refused(size, align, ans)
    ensures 1 <= align < WORD
    ensures var a, s' := Start(size, align, ans), After(s, size, align, ans);
            Gives(s, s', if Cacheable(size, align) then a + 16 else LargeUserAddr(a, align), a, size, align)
  {
    hide SpaceOk, KeepsLive, Gives, IsPowerOfTwo, ClassFor, SizeToClass, LargePages, LargeUserAddr, FreshPages,
        BlocksPerPage, PagesForBlock, Pow2, NewLarge, NewSmall, TakeIdle, Carve, PageCarved;
    WordExceedsAlign(align);
    if !Cacheable(size, align) {
      LargeGives(s, size, align, ans.run.value);
    } else if ans.cached.Some? {
      CachedGives(s, size, align, ans);
    } else if BlocksPerPage(ClassFor(size)) > 1 && ans.page.Some? {
      PageGives(s, size, align, ans);
    } else {
      RunGives(s, size, align, ans);
    }
  }

  // ------------------------------------------------------------------
  // The entry points
  // ------------------------------------------------------------------

  /** Nothing is known to the allocator but this memory; `blocks` records what
      it has carved and handed out. */
  class AethAlloc {
    var mem: Memory
    ghost var blocks: map<nat, Block>

    ghost function Now(): Space
      reads this
    {
      Space(mem, blocks)
    }

    ghost predicate Valid()
      reads this
    {
      SpaceOk(Now())
    }

    constructor (mem: Memory)
      ensures Valid() && this.mem == mem && blocks == map[]
    {
      this.mem, blocks := mem, map[];
    }

    method Read32At(a: nat) returns (v: nat)
      requires Mapped(mem, a, 4)
      ensures v == Word32(mem, a)
    {
      var b0: nat, b1: nat, b2: nat, b3: nat := mem[a], mem[a + 1], mem[a + 2], mem[a + 3];
      v := b0 + 256 * b1 + 65536 * b2 + 16777216 * b3;
    }

    method Read64At(a: nat) returns (v: nat)
      requires Mapped(mem, a, 8)
      ensures v == Word64(mem, a)
    {
      var lo := Read32At(a);
      var hi := Read32At(a + 4);
      v := lo + WORD32 * hi;
    }

    method Write(a: nat, s: seq<byte>)
      requires Mapped(mem, a, |s|)
      modifies this`mem
      ensures mem == Store(old(mem), a, s)
    {
      mem := Store(mem, a, s);
    }

    /** `GlobalAlloc::alloc`. */
    method Alloc(size: nat, align: nat, ans: Answers) returns (p: nat, ghost a: nat, spare: seq<nat>)
      requires Valid() && ValidLayout(size, align) && Honest(Now(), size, align, ans)
      modifies this
      ensures Valid()
      ensures p == 0 <==> Refused(size, align, ans)
      ensures p == 0 ==> Now() == old(Now())
      ensures p != 0 ==> Gives(old(Now()), Now(), p, a, size, align)
      ensures p != 0 ==> Now() == After(old(Now()), size, align, ans)
      ensures size > 0 && ans.run.Some? ==> p != 0
      ensures spare == if p != 0 && FromPage(size, align, ans) then Spare(ans.page.value, ClassFor(size)) else []
      ensures HandsOver(old(Now()), Now(), ClassFor(size), spare) && a !in spare
    {
      hide SpaceOk, Gives, ValidLayout, SizeToClass, CacheSize, TakeIdle, NewSmall, NewLarge, PageCarved, FreshPages,
          ClassFor, BlocksPerPage, PagesForBlock, LargePages, LargeUserAddr, HandsOver, Spare;
      a, spare := 0, [];
      AllocHandsOver(Now(), size, align, ans);
      NothingHandedOver(Now(), ClassFor(size));
      RefusedOnly(size, align, ans);
      if size == 0 {
        return 0, 0, [];
      }
      if !Refused(size, align, ans) {
        AllocGives(Now(), size, align, ans);
        GivesPointer(Now(), After(Now(), size, align, ans), if Cacheable(size, align)
            then Start(size, align, ans) + 16 else LargeUserAddr(Start(size, align, ans), align),
                Start(size, align, ans), size, align);
        HandsOverOthers(Now(), After(Now(), size, align, ans), ClassFor(size),
            if FromPage(size, align, ans) then Spare(ans.page.value, ClassFor(size)) else [], Start(size, align, ans));
      }
      if size <= MAX_CACHE_SIZE && align <= 8 {
        ClassForFits(size);
        var k := SizeToClass(CacheSize(size));
        if k.Some? {
          var c := k.value;
          if ans.cached.Some? {
            p, a := AllocCached(ans.cached.value, c, size);
            return;
          }
          if PAGE_SIZE / (CacheSize(size) + CACHE_HEADER_SIZE) > 1 && ans.page.Some? {
            assert BlocksPerPage(c) > 1 by { PerPage(c); }
            p, a, spare := AllocPage(ans.page.value, c, size);
            return;
          }
          assert BlocksPerPage(c) <= 1 || ans.page == None by { PerPage(c); }
          if ans.run.Some? {
            p, a := AllocRun(ans.run.value, PagesForBlock(c), c, size);
            return;
          }
          return 0, 0, [];
        }
      }
      match ans.run
      case None => return 0, 0, [];
      case Some(base) => p, a := AllocLarge(base, size, align);
    }

    /** A block from a magazine: write the size, return past the header. */
    method AllocCached(block: nat, c: nat, size: nat) returns (p: nat, ghost a: nat)
      requires Valid() && block in blocks && blocks[block] == Idle(c) && SmallRequest(c, size)
      modifies this
      ensures Now() == TakeIdle(old(Now()), block, c, size) && p == block + 16 && a == block
    {
      hide SpaceOk, SizeToClass, Bytes64, Store;
      BlockAt(Now(), block);
      LenPositive(block, Idle(c));
      Write(block, Bytes64(size));
      blocks := blocks[block := Small(c, size)];
      p, a := block + CACHE_HEADER_SIZE, block;
    }

    /** A fresh page: the first block is returned, the next ones go to the
        magazine, as many as it takes; `spare` is what it is filled with. */
    method AllocPage(base: nat, c: nat, size: nat) returns (p: nat, ghost a: nat, spare: seq<nat>)
      requires Valid() && FreshPages(mem, base, 1) && SmallRequest(c, size) && BlocksPerPage(c) > 1
      modifies this
      ensures p == base + 16 && a == base
      ensures Now() == PageCarved(old(Now()), base, c, size)
      ensures spare == Spare(base, c) && HandsOver(old(Now()), Now(), c, spare) && base !in spare
    {
      hide SpaceOk, SizeToClass, Bytes64, Store, BlocksPerPage, BlockSize;
      PageHandsOver(Now(), base, c, size);
      PageCarvedKeeps(Now(), base, c, size);
      p, a := AllocRun(base, 1, c, size);
      ghost var first := blocks;
      var i := 0;
      spare := [];
      while i < Refill(c)
        invariant i <= Refill(c) && mem == NewSmall(old(Now()), base, 1, c, size).mem
        invariant blocks == Carve(first, base, c, i)
        invariant |spare| == i && forall j :: 0 <= j < i ==> spare[j] == Nth(base, c, j + 1)
      {
        i := i + 1;
        spare := spare + [Nth(base, c, i)];
        blocks := blocks[Nth(base, c, i) := Idle(c)];
      }
    }

    method AllocRun(base: nat, pages: nat, c: nat, size: nat) returns (p: nat, ghost a: nat)
      requires Valid() && FreshPages(mem, base, pages) && SmallRequest(c, size)
      modifies this
      ensures Now() == NewSmall(old(Now()), base, pages, c, size) && p == base + 16 && a == base
    {
      hide SpaceOk, SizeToClass, Bytes64, Store, MapRange;
      mem := MapRange(mem, base, pages * PAGE_SIZE);
      Write(base, Bytes64(size));
      blocks := blocks[base := Small(c, size)];
      p, a := base + CACHE_HEADER_SIZE, base;
    }

    method AllocLarge(base: nat, size: nat, align: nat) returns (p: nat, ghost a: nat)
      requires Valid() && size >= 1 && ValidLayout(size, align) && FreshPages(mem, base, LargePages(size, align))
      modifies this
      ensures 1 <= align < WORD
      ensures Now() == NewLarge(old(Now()), base, size, align) && p == LargeUserAddr(base, align) && a == base
    {
      hide SpaceOk, Bytes64, Bytes32, Store, MapRange, ValidLayout, LargePages, LargeUserAddr, BlockValid;
      WordExceedsAlign(align) by { LayoutAlign(size, align); }
      var pages := LargePages(size, align);
      LargeInside(base, pages, align, size) by { NewLargeKeeps(Now(), base, size, align); }
      mem := MapRange(mem, base, pages * PAGE_SIZE);
      Write(base, Bytes32(MAGIC));
      Write(base + 4, Bytes32(pages % WORD32));
      Write(base + 8, Bytes64(size));
      p, a := LargeUserAddr(base, align), base;
      Write(p - 16, Bytes32(LARGE_MAGIC));
      Write(p - 8, Bytes64(base));
      blocks := blocks[base := Large(pages, align, size)];
    }

    /** `GlobalAlloc::dealloc`: the branch taken is that of the path that made
        the block. */
    method Dealloc(p: nat) returns (r: Freed)
      requires Valid() && (p != 0 ==> LivePointer(Now(), p))
      modifies this
      ensures Valid()
      ensures p == 0 ==> r == Nothing && Now() == old(Now())
      ensures p != 0 ==> FreedBy(old(Now()), Owner(old(Now()), p), r, Now())
    {
      hide SpaceOk, SizeToClass, CacheSize, Word32, Word64, KeepsLive, User;
      if p == 0 {
        return Nothing;
      }
      ghost var s := Now();
      ghost var a := Owner(s, p);
      if s.blocks[a].Small? { SmallDispatch(s, a, p); } else { LargeDispatch(s, a, p); }
      var magic := Read32At(p - LARGE_HEADER_SIZE);
      if magic == LARGE_MAGIC {
        var base := Read64At(p - 8);
        r := DeallocLarge(base);
        return;
      }
      var size := Read64At(p - CACHE_HEADER_SIZE);
      if 0 < size <= MAX_CACHE_SIZE {
        var pageMagic := Read32At(p - CACHE_HEADER_SIZE);
        if pageMagic != MAGIC {
          var k := SizeToClass(CacheSize(size));
          if k.Some? {
            FreeSmallKeeps(s, a);
            blocks := blocks[p - CACHE_HEADER_SIZE := Idle(k.value)];
            r := ToClass(p - CACHE_HEADER_SIZE, k.value);
            return;
          }
        }
      }
      assert false;
    }

    /** The large branch of `dealloc`. */
    method DeallocLarge(base: nat) returns (r: Freed)
      requires Valid() && base in blocks && blocks[base].Large? && Mapped(mem, base, 16)
      requires PageHeaderOk(mem, base, blocks[base].pages, blocks[base].size)
      modifies this
      ensures Valid()
      ensures FreedBy(old(Now()), base, r, Now())
    {
      hide SpaceOk, Word32, Word64, KeepsLive;
      var magic := Read32At(base);
      var pages := Read32At(base + 4);
      FreeLargeKeeps(Now(), base, pages * PAGE_SIZE);
      if magic == MAGIC && pages > 0 {
        mem := UnmapRange(mem, base, pages * PAGE_SIZE);
        r := Unmapped(base, pages);
      } else {
        UnmapNothing(mem, base);
        r := Kept(base);
      }
      blocks := blocks - {base};
    }

    /** `get_alloc_size` is exact on every live pointer. */
    method GetAllocSize(p: nat) returns (n: nat)
      requires Valid() && (p != 0 ==> LivePointer(Now(), p))
      ensures p == 0 ==> n == 0
      ensures p != 0 ==> n == Requested(blocks[Owner(Now(), p)])
    {
      hide SpaceOk, Word32, Word64, User, SizeToClass, CacheSize;
      n := 0;
      if p == 0 {
        return;
      }
      ghost var s := Now();
      ghost var a := Owner(s, p);
      if s.blocks[a].Small? { SmallDispatch(s, a, p); } else { LargeDispatch(s, a, p); }
      var magic := Read32At(p - LARGE_HEADER_SIZE);
      if magic == LARGE_MAGIC {
        var base := Read64At(p - 8);
        var pageMagic := Read32At(base);
        if pageMagic == MAGIC {
          n := Read64At(base + 8);
          return;
        }
        assert false;
      }
      var size := Read64At(p - CACHE_HEADER_SIZE);
      if 0 < size <= MAX_CACHE_SIZE {
        var pageMagic := Read32At(p - CACHE_HEADER_SIZE);
        if pageMagic != MAGIC {
          return size;
        }
      }
      assert false;
    }

    /** `malloc`. */
    method Malloc(size: nat, ans: Answers) returns (p: nat, ghost a: nat, spare: seq<nat>)
      requires Valid() && size < WORD && Honest(Now(), size, 8, ans)
      modifies this
      ensures Valid()
      ensures p == 0 <==> size > Pow2(63) - 8 || Refused(size, 8, ans)
      ensures p == 0 ==> Now() == old(Now())
      ensures 0 < size <= Pow2(63) - 8 && ans.run.Some? ==> p != 0
      ensures p != 0 ==> Gives(old(Now()), Now(), p, a, size, 8)
      ensures HandsOver(old(Now()), Now(), ClassFor(size), spare)
    {
      hide SpaceOk, Gives, Pow2, FreshPages, ClassFor, After, HandsOver, Spare;
      NothingHandedOver(Now(), ClassFor(size));
      if size == 0 {
        return 0, 0, [];
      }
      assert ValidLayout(size, 8) <==> size <= Pow2(63) - 8 by { EightIsAlignment(size); }
      if size > Pow2(63) - 8 {
        return 0, 0, [];
      }
      p, a, spare := Alloc(size, 8, ans);
    }

    /** `free`. */
    method Free(p: nat) returns (r: Freed)
      requires Valid() && (p != 0 ==> LivePointer(Now(), p))
      modifies this
      ensures Valid()
      ensures p == 0 ==> r == Nothing && Now() == old(Now())
      ensures p != 0 ==> FreedBy(old(Now()), Owner(old(Now()), p), r, Now())
    {
      if p == 0 {
        return Nothing;
      }
      r := Dealloc(p);
    }

    /** The owner of `p` writes into its bytes. */
    method ClientStore(p: nat, at: nat, v: seq<byte>)
      requires Valid() && LivePointer(Now(), p)
      requires at + |v| <= Requested(blocks[Owner(Now(), p)])
      modifies this`mem
      ensures Valid() && mem == Store(old(mem), p + at, v) && KeepsLive(old(Now()), Now(), Owner(old(Now()), p))
    {
      hide SpaceOk, Store, KeepsLive, User;
      UserStoreKeeps(Now(), Owner(Now(), p), p + at, v);
      mem := Store(mem, p + at, v);
    }

    /** `calloc`: zeroed bytes, and no allocation when the product overflows. */
    method Calloc(nmemb: nat, size: nat, ans: Answers) returns (p: nat, ghost a: nat, spare: seq<nat>)
      requires Valid() && nmemb < WORD && size < WORD && Honest(Now(), nmemb * size, 8, ans)
      modifies this
      ensures Valid()
      ensures p == 0 <==> nmemb * size >= WORD || nmemb * size > Pow2(63) - 8 || Refused(nmemb * size, 8, ans)
      ensures p == 0 ==> Now() == old(Now())
      ensures p != 0 ==> Gives(old(Now()), Now(), p, a, nmemb * size, 8)
      ensures p != 0 ==> a in blocks && Contents(Now(), a) == Zeros(nmemb * size)
      ensures HandsOver(old(Now()), Now(), ClassFor(nmemb * size), spare)
    {
      hide SpaceOk, Gives, Pow2, FreshPages, Honest, Refused, Store, KeepsLive, Zeros, Contents, ClassFor;
      var total := nmemb * size;
      if total >= WORD {
        return 0, 0, [];
      }
      p, a, spare := Malloc(total, ans);
      if p != 0 {
        ghost var s, s1 := old(Now()), Now();
        FilledGives(s, s1, p, a, total, 8, Zeros(total));
        Write(p, Zeros(total));
        GivesPointer(s, Now(), p, a, total, 8);
      }
    }

    /** `realloc`. */
    method Realloc(p: nat, size: nat, ans: Answers) returns (r: nat, ghost a: nat, spare: seq<nat>, f: Freed)
      requires Valid() && size < WORD && (p != 0 ==> LivePointer(Now(), p)) && Honest(Now(), size, 8, ans)
      modifies this
      ensures Valid()
      ensures p == 0 || size > 0 ==> (r == 0 <==> size > Pow2(63) - 8 || Refused(size, 8, ans))
      ensures p == 0 || size > 0 ==> r == 0 ==> Now() == old(Now())
      ensures p == 0 && r != 0 ==> Gives(old(Now()), Now(), r, a, size, 8)
      ensures p != 0 && size == 0 ==> r == 0 && Released(old(Now()), Owner(old(Now()), p), f, Now())
      ensures p != 0 && r != 0 ==> Moved(old(Now()), Owner(old(Now()), p), f, Now(), r, a, size)
      ensures HandsOver(old(Now()), Now(), ClassFor(size), spare)
      ensures f == Nothing <==> p == 0 || (r == 0 && size > 0)
    {
      hide SpaceOk, Gives, Pow2, FreshPages, Honest, Refused, Store, KeepsLive, Contents, PointsTo, Load, FreedBy,
          Released, Moved, HandsOver, ClassFor;
      f, spare := Nothing, [];
      if p == 0 {
        r, a, spare := Malloc(size, ans);
        return;
      }
      ghost var s0 := Now();
      ghost var a0 := Owner(s0, p);
      OwnerInUse(s0, p);
      if size == 0 {
        f := Free(p);
        FreedSomething(s0, a0, f, Now());
        FreedIsReleased(s0, a0, f, Now());
        NothingHandedOver(s0, ClassFor(size));
        FreeHandsNothing(s0, s0, a0, f, Now(), ClassFor(size), []);
        r, a := 0, 0;
        return;
      }
      var oldSize := GetAllocSize(p);
      r, a, spare := Malloc(size, ans);
      if r != 0 {
        var n := if oldSize < size then oldSize else size;
        ghost var s1 := Now();
        CopyFits(s0, s1, p, a0, r, a, size, n);
        Write(r, Load(mem, p, n));
        ghost var s2 := Now();
        assert Owner(s2, p) == a0 by { OwnerUnique(s2, p, Owner(s2, p), a0); }
        f := Free(p);
        MoveDone(s0, s1, s2, Now(), p, a0, r, a, size, n, f);
        HandsOverMem(s0, s1, s2, ClassFor(size), spare);
        FreedSomething(s2, a0, f, Now());
        FreeHandsNothing(s0, s2, a0, f, Now(), ClassFor(size), spare);
      }
    }

    /** `aligned_alloc`: a size of 0 counts as 1. */
    method AlignedAlloc(alignment: nat, size: nat, ans: Answers) returns (p: nat, ghost a: nat, spare: seq<nat>)
      requires Valid() && alignment < WORD && size < WORD && Honest(Now(), AtLeastOne(size), alignment, ans)
      modifies this
      ensures Valid()
      ensures p == 0 <==> !ValidLayout(AtLeastOne(size), alignment) || Refused(AtLeastOne(size), alignment, ans)
      ensures p == 0 ==> Now() == old(Now())
      ensures ValidLayout(AtLeastOne(size), alignment) && ans.run.Some? ==> p != 0
      ensures p != 0 ==> Gives(old(Now()), Now(), p, a, AtLeastOne(size), alignment)
      ensures HandsOver(old(Now()), Now(), ClassFor(AtLeastOne(size)), spare)
    {
      hide SpaceOk, Gives, Pow2, FreshPages, Honest, Refused, IsPowerOfTwo, After, ClassFor, HandsOver, Spare;
      NothingHandedOver(Now(), ClassFor(AtLeastOne(size)));
      if alignment == 0 || !IsPowerOfTwo(alignment) {
        ZeroIsNoPower();
        return 0, 0, [];
      }
      if !ValidLayout(AtLeastOne(size), alignment) {
        return 0, 0, [];
      }
      p, a, spare := Alloc(AtLeastOne(size), alignment, ans);
    }

    /** `posix_memalign`: the code and the pointer stored through `memptr`. */
    method PosixMemalign(alignment: nat, size: nat, ans: Answers)
        returns (code: nat, memptr: Option<nat>, ghost a: nat, spare: seq<nat>)
      requires Valid() && alignment < WORD && size < WORD && Honest(Now(), AtLeastOne(size), alignment, ans)
      modifies this
      ensures Valid()
      ensures code == 22 <==> !(IsPowerOfTwo(alignment) && alignment % 8 == 0)
      ensures code == 12 <==> IsPowerOfTwo(alignment) && alignment % 8 == 0 && size != 0
                              && (!ValidLayout(size, alignment) || Refused(size, alignment, ans))
      ensures code == 0 || code == 12 || code == 22
      ensures code == 0 <==> memptr.Some?
      ensures code != 0 || memptr.value == 0 ==> Now() == old(Now())
      ensures code == 0 ==> (memptr.value != 0 <==>
                ValidLayout(AtLeastOne(size), alignment) && !Refused(AtLeastOne(size), alignment, ans))
      ensures code == 0 && memptr.value != 0 ==> Gives(old(Now()), Now(), memptr.value, a, AtLeastOne(size), alignment)
      ensures HandsOver(old(Now()), Now(), ClassFor(AtLeastOne(size)), spare)
    {
      hide SpaceOk, Gives, Pow2, FreshPages, Honest, Refused, IsPowerOfTwo, ValidLayout, ClassFor, HandsOver;
      NothingHandedOver(Now(), ClassFor(AtLeastOne(size)));
      if alignment == 0 || !IsPowerOfTwo(alignment) || alignment % 8 != 0 {
        ZeroIsNoPower();
        return 22, None, 0, [];
      }
      var p;
      p, a, spare := AlignedAlloc(alignment, size, ans);
      if p == 0 && size != 0 {
        return 12, None, 0, spare;
      }
      code, memptr := 0, Some(p);
    }
  }

  lemma LayoutAlign(size: nat, align: nat)
    requires ValidLayout(size, align)
    ensures IsPowerOfTwo(align) && align <= Pow2(63)
  {
  }

  lemma GivesPointer(s: Space, s': Space, p: nat, a: nat, size: nat, align: nat)
    requires Gives(s, s', p, a, size, align)
    ensures p > 0 && SpaceOk(s') && PointsTo(s', p, a) && InUse(s', a)
  {
    hide SpaceOk, KeepsLive, User;
  }

  lemma HandsOverOthers(s: Space, s': Space, c: nat, spare: seq<nat>, a: nat)
    requires HandsOver(s, s', c, spare) && InUse(s', a)
    ensures a !in spare
  {
  }

  lemma PerPage(c: nat)
    ensures BlocksPerPage(c) == PAGE_SIZE / (ClassSize(c) + CACHE_HEADER_SIZE)
  {
    hide ClassSize;
  }

  // ------------------------------------------------------------------
  // Release and copying
  // ------------------------------------------------------------------

  /** How a block in use is released: a small one goes back to exactly the class
      it was carved for; of a large one as many pages are unmapped, from its
      base, as the 32-bit count in its header says. */
  ghost predicate FreedBy(s: Space, a: nat, r: Freed, s': Space) {
    && InUse(s, a)
    && (s.blocks[a].Small? ==>
        r == ToClass(a, s.blocks[a].index) && s' == Space(s.mem, s.blocks[a := Idle(s.blocks[a].index)]))
    && (s.blocks[a].Large? ==>
         var n := s.blocks[a].pages % WORD32;
         && r == (if n > 0 then Unmapped(a, n) else Kept(a))
         && s' == Space(UnmapRange(s.mem, a, n * PAGE_SIZE), s.blocks - {a}))
    && KeepsLive(s, s', a)
  }

  /** What became of a block `b` at `a`: a small one is idle again, in its own
      class; of a large one the pages its header counts are mapped no more. */
  ghost predicate GivenBack(a: nat, b: Block, r: Freed, s': Space) {
    match b
    case Small(c, _) => r == ToClass(a, c) && a in s'.blocks && s'.blocks[a] == Idle(c)
    case Large(pages, _, _) =>
      var n := pages % WORD32;
      && r == (if n > 0 then Unmapped(a, n) else Kept(a)) && a !in s'.blocks
      && forall x: nat :: a <= x < a + n * PAGE_SIZE ==> x !in s'.mem
    case Idle(_) => false
  }

  /** The block is given back, all others are as before. */
  ghost predicate Released(s: Space, a: nat, r: Freed, s': Space) {
    InUse(s, a) && GivenBack(a, s.blocks[a], r, s') && KeepsLive(s, s', a)
  }

  lemma FreedIsReleased(s: Space, a: nat, r: Freed, s': Space)
    requires FreedBy(s, a, r, s')
    ensures Released(s, a, r, s')
  {
    hide KeepsLive, UnmapRange;
  }

  lemma OwnerInUse(s: Space, p: nat)
    requires LivePointer(s, p)
    ensures InUse(s, Owner(s, p)) && Owner(s, p) in s.blocks
  {
    hide User;
  }

  lemma FreedSomething(s: Space, a: nat, r: Freed, s': Space)
    requires FreedBy(s, a, r, s')
    ensures r != Nothing
  {
    hide KeepsLive, UnmapRange;
  }

  /** Releasing a block that was there makes no new idle one. */
  lemma FreeHandsNothing(s: Space, s1: Space, a: nat, r: Freed, s': Space, c: nat, spare: seq<nat>)
    requires HandsOver(s, s1, c, spare) && a in s.blocks && FreedBy(s1, a, r, s')
    ensures HandsOver(s, s', c, spare)
  {
    hide KeepsLive, UnmapRange, Distinct;
  }

  lemma HandsOverMem(s: Space, s1: Space, s2: Space, c: nat, spare: seq<nat>)
    requires HandsOver(s, s1, c, spare) && s2.blocks == s1.blocks
    ensures HandsOver(s, s2, c, spare)
  {
  }

  lemma UnmapNothing(mem: Memory, a: nat)
    ensures UnmapRange(mem, a, 0) == mem
  {
  }

  lemma EightIsAlignment(size: nat)
    ensures ValidLayout(size, 8) <==> size <= Pow2(63) - 8
  {
    hide Pow2;
    Pow2Word();
    assert IsPowerOfTwo(4);
  }

  lemma ZeroIsNoPower()
    ensures !IsPowerOfTwo(0)
  {
  }

  function AtLeastOne(size: nat): nat {
    if size < 1 then 1 else size
  }

  function Zeros(n: nat): (s: seq<byte>)
    ensures |s| == n && forall i :: 0 <= i < n ==> s[i] == 0
  {
    if n == 0 then [] else Zeros(n - 1) + [0]
  }

  /** Filling the new block keeps what the allocation gave. */
  lemma FilledGives(s: Space, s1: Space, p: nat, a: nat, size: nat, align: nat, v: seq<byte>)
    requires Gives(s, s1, p, a, size, align) && |v| == size
    ensures Mapped(s1.mem, p, size) && a in s1.blocks
    ensures var s2 := Space(Store(s1.mem, p, v), s1.blocks);
            Gives(s, s2, p, a, size, align) && Contents(s2, a) == v
  {
    hide SpaceOk, Store, User, Load;
    UserMapped(s1, p, a);
    UserStoreKeeps(s1, a, p, v);
    var s2 := Space(Store(s1.mem, p, v), s1.blocks);
    LoadStored(s1.mem, p, v);
    KeepsBoth(s, s1, s2, a);
  }

  lemma UserMapped(s: Space, p: nat, a: nat)
    requires SpaceOk(s) && PointsTo(s, p, a)
    ensures p >= 16 && Mapped(s.mem, p, Requested(s.blocks[a]))
  {
    hide SpaceOk, User, Len, BlockValid, HeaderOk;
    BlockAt(s, a);
    UserInside(a, s.blocks[a]);
  }

  lemma KeepsBoth(s: Space, s1: Space, s2: Space, a: nat)
    requires KeepsLive(s, s1, 0) && KeepsLive(s1, s2, a) && !InUse(s, a)
    ensures KeepsLive(s, s2, 0)
  {
    hide Contents;
  }

  /** The block at `a0` became the block at `a`, with its first bytes, as many as
      fit both, and was given back; every other block in use is untouched. */
  ghost predicate Moved(s: Space, a0: nat, f: Freed, s': Space, r: nat, a: nat, size: nat) {
    && InUse(s, a0) && !InUse(s, a) && PointsTo(s', r, a) && GivenBack(a0, s.blocks[a0], f, s')
    && r > 0 && r % 16 == 0 && Requested(s'.blocks[a]) == size
    && SamePrefix(Contents(s', a), Contents(s, a0))
    && KeepsLive(s, s', a0)
  }

  /** One is a prefix of the other. */
  predicate SamePrefix(x: seq<byte>, y: seq<byte>) {
    var n := if |x| < |y| then |x| else |y|;
    x[..n] == y[..n]
  }

  function Copied(s: Space, p: nat, r: nat, n: nat): Space {
    Space(Store(s.mem, r, Load(s.mem, p, n)), s.blocks)
  }

  /** The two ranges of the copy are mapped and apart, and after it the old
      block is still there. */
  lemma CopyFits(s0: Space, s1: Space, p: nat, a0: nat, r: nat, a: nat, size: nat, n: nat)
    requires SpaceOk(s0) && PointsTo(s0, p, a0) && Gives(s0, s1, r, a, size, 8)
    requires n <= size && n <= Requested(s0.blocks[a0])
    ensures Mapped(s1.mem, p, n) && Mapped(s1.mem, r, n) && (p + n <= r || r + n <= p)
    ensures a0 != a && SpaceOk(Copied(s1, p, r, n)) && PointsTo(Copied(s1, p, r, n), p, a0)
    ensures KeepsLive(s1, Copied(s1, p, r, n), a)
  {
    hide SpaceOk, User, Store, Load, Len, BlockValid, HeaderOk, Contents;
    BlockAt(s0, a0);
    assert a0 > 0 by { BlockStart(a0, s0.blocks[a0]); }
    assert PointsTo(s1, p, a0);
    UserMapped(s1, p, a0);
    UserMapped(s1, r, a);
    UserRangesApartAt(s1, p, a0, r, a);
    UserStoreKeeps(s1, a, r, Load(s1.mem, p, n));
  }

  lemma BlockStart(a: nat, b: Block)
    requires BlockValid(a, b)
    ensures a > 0
  {
  }

  lemma UserRangesApartAt(s: Space, p: nat, a: nat, q: nat, b: nat)
    requires SpaceOk(s) && PointsTo(s, p, a) && PointsTo(s, q, b) && a != b
    ensures p + Requested(s.blocks[a]) <= q || q + Requested(s.blocks[b]) <= p
  {
    hide SpaceOk, User, Len, BlockValid, HeaderOk;
    Apart(s, a, b);
    BlockAt(s, a);
    BlockAt(s, b);
    UserInside(a, s.blocks[a]);
    UserInside(b, s.blocks[b]);
  }

  lemma LoadPrefix(mem: Memory, a: nat, n: nat, k: nat)
    requires k <= n
    ensures Load(mem, a, n)[..k] == Load(mem, a, k)
  {
  }

  lemma MoveDone(s0: Space, s1: Space, s2: Space, s3: Space, p: nat, a0: nat, r: nat, a: nat, size: nat, n: nat,
      f: Freed)
    requires SpaceOk(s0) && PointsTo(s0, p, a0) && Gives(s0, s1, r, a, size, 8)
    requires n == (if Requested(s0.blocks[a0]) < size then Requested(s0.blocks[a0]) else size)
    requires s2 == Copied(s1, p, r, n) && a != a0 && KeepsLive(s1, s2, a) && FreedBy(s2, a0, f, s3)
    ensures Moved(s0, a0, f, s3, r, a, size)
  {
    hide SpaceOk, User, Store, Load, Len, BlockValid, HeaderOk, FreedBy, UnmapRange;
    BlockAt(s0, a0);
    BlockStart(a0, s0.blocks[a0]);
    FreedIsReleased(s2, a0, f, s3);
    FreedKeeps(s2, a0, f, s3);
    LoadPrefix(s2.mem, r, size, n);
    LoadPrefix(s1.mem, p, Requested(s0.blocks[a0]), n);
    assert Load(s2.mem, r, n) == Load(s1.mem, p, n) by {
      UserMapped(s1, r, a);
      LoadStored(s1.mem, r, Load(s1.mem, p, n));
    }
    MoveKeeps(s0, s1, s2, s3, a0, a);
  }

  lemma FreedKeeps(s: Space, a: nat, r: Freed, s': Space)
    requires FreedBy(s, a, r, s')
    ensures KeepsLive(s, s', a)
  {
    hide KeepsLive, UnmapRange;
  }

  lemma MoveKeeps(s0: Space, s1: Space, s2: Space, s3: Space, a0: nat, a: nat)
    requires SpaceOk(s0) && KeepsLive(s0, s1, 0) && KeepsLive(s1, s2, a) && KeepsLive(s2, s3, a0) && !InUse(s0, a)
    ensures KeepsLive(s0, s3, a0)
  {
    hide SpaceOk, Contents, BlockValid, HeaderOk, Mapped;
    forall q | InUse(s0, q)
      ensures q > 0
    {
      BlockAt(s0, q);
      BlockStart(q, s0.blocks[q]);
    }
  }
}
