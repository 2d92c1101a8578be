/** What allocation and release do to the address space, path by path. */
module SpaceSteps {
  import opened Bits
  import opened Common
  import opened BlockLayout
  import opened ByteMemory
  import opened Space

  /** Pages the page source may answer with: aligned and not mapped before. */
  ghost predicate FreshPages(mem: Memory, base: nat, pages: nat) {
    && base > 0 && base % PAGE_SIZE == 0 && pages > 0 && base + pages * PAGE_SIZE <= WORD
    && forall x: nat :: base <= x < base + pages * PAGE_SIZE ==> x !in mem
  }

  // ------------------------------------------------------------------
  // Mapping
  // ------------------------------------------------------------------

  lemma MapKeeps(s: Space, base: nat, n: nat)
    requires SpaceOk(s) && n > 0 && forall x: nat :: base <= x < base + n ==> x !in s.mem
    ensures var s' := Space(MapRange(s.mem, base, n), s.blocks);
            SpaceOk(s') && Unowned(s'.blocks, base, base + n) && Mapped(s'.mem, base, n)
    ensures ChangedOnlyIn(s.mem, MapRange(s.mem, base, n), base, base + n)
  {
    hide SpaceOk, Unowned, MapRange;
    FreshIsUnowned(s, base, base + n);
    OutsideKeeps(s, MapRange(s.mem, base, n), base, base + n);
  }

  lemma ChangedTrans(m0: Memory, m1: Memory, m2: Memory, lo: nat, hi: nat)
    requires ChangedOnlyIn(m0, m1, lo, hi) && ChangedOnlyIn(m1, m2, lo, hi)
    ensures ChangedOnlyIn(m0, m2, lo, hi)
  {
    hide Peek;
  }

  lemma StoreChanges(m: Memory, a: nat, v: seq<byte>, lo: nat, hi: nat)
    requires lo <= a && a + |v| <= hi
    ensures ChangedOnlyIn(m, Store(m, a, v), lo, hi)
  {
  }

  // ------------------------------------------------------------------
  // Small blocks
  // ------------------------------------------------------------------

  /** An idle block of the class is handed out; its header gets the size. */
  function TakeIdle(s: Space, a: nat, c: nat, size: nat): Space {
    Space(Store(s.mem, a, Bytes64(size)), s.blocks[a := Small(c, size)])
  }

  ghost predicate SmallRequest(c: nat, size: nat) {
    1 <= size <= MAX_CACHE_SIZE && c < NUM_CLASSES && SizeToClass(size) == Some(c)
  }

  lemma SmallHeader(mem: Memory, a: nat, c: nat, size: nat)
    requires SmallRequest(c, size) && Mapped(mem, a, 8)
    ensures HeaderOk(Store(mem, a, Bytes64(size)), a, Small(c, size))
  {
    hide SizeToClass, Bytes64, Word64;
    Read64(mem, a, size);
  }

  lemma TakeIdleKeeps(s: Space, a: nat, c: nat, size: nat)
    requires SpaceOk(s) && a in s.blocks && s.blocks[a] == Idle(c) && SmallRequest(c, size)
    ensures SpaceOk(TakeIdle(s, a, c, size))
    ensures KeepsLive(s, TakeIdle(s, a, c, size), 0)
  {
    hide SpaceOk, SizeToClass, Bytes64, HeaderOk, KeepsLive, BlockSize, Store;
    var m, b := Store(s.mem, a, Bytes64(size)), Small(c, size);
    BlockAt(s, a);
    LenPositive(a, s.blocks[a]);
    SmallHeader(s.mem, a, c, size);
    StoreChanges(s.mem, a, Bytes64(size), a, a + Len(b));
    ReplaceKeeps(s, m, a, b);
    ReplaceKeepsLive(s, m, a, b);
    NotInUseKept(s, TakeIdle(s, a, c, size), a);
  }

  lemma NotInUseKept(s: Space, s': Space, a: nat)
    requires KeepsLive(s, s', a) && !InUse(s, a)
    ensures KeepsLive(s, s', 0) && KeepsLive(s, s', a)
  {
    hide Contents;
  }

  lemma KeepsLiveTrans(s0: Space, s1: Space, s2: Space, a: nat)
    requires KeepsLive(s0, s1, a) && KeepsLive(s1, s2, a)
    ensures KeepsLive(s0, s2, a)
  {
    hide Contents;
  }

  /** A block at the start of freshly mapped pages. */
  function NewSmall(s: Space, base: nat, pages: nat, c: nat, size: nat): Space {
    Space(Store(MapRange(s.mem, base, pages * PAGE_SIZE), base, Bytes64(size)), s.blocks[base := Small(c, size)])
  }

  lemma NewSmallKeeps(s: Space, base: nat, pages: nat, c: nat, size: nat)
    requires SpaceOk(s) && FreshPages(s.mem, base, pages) && SmallRequest(c, size) && BlockSize(c) <= pages * PAGE_SIZE
    ensures var s' := NewSmall(s, base, pages, c, size);
            && SpaceOk(s') && KeepsLive(s, s', 0) && base !in s.blocks
            && Unowned(s'.blocks, base + BlockSize(c), base + pages * PAGE_SIZE)
                && Mapped(s'.mem, base, pages * PAGE_SIZE)
  {
    hide SpaceOk, SizeToClass, Bytes64, HeaderOk, KeepsLive, BlockSize, Store, MapRange, Unowned, ChangedOnlyIn, Mapped,
        BlockValid, Len, SmallRequest;
    var n := pages * PAGE_SIZE;
    var m, b := MapRange(s.mem, base, n), Small(c, size);
    var s1, m1 := Space(m, s.blocks), Store(m, base, Bytes64(size));
    MapKeeps(s, base, n);
    SmallInRun(m, s.blocks, base, n, c, size);
    OutsideKeeps(s1, m1, base, base + n);
    AddKeeps(Space(m1, s.blocks), base, b);
    ChangedTrans(s.mem, m, m1, base, base + n);
    NewKeepsLive(s, m1, base, base + n, base, b);
  }

  /** A small block at the start of a run of pages nobody owns. */
  lemma SmallInRun(m: Memory, blocks: map<nat, Block>, base: nat, n: nat, c: nat, size: nat)
    requires SmallRequest(c, size) && base > 0 && base % 16 == 0 && BlockSize(c) <= n
    requires Mapped(m, base, n) && Unowned(blocks, base, base + n)
    ensures var b, m1 := Small(c, size), Store(m, base, Bytes64(size));
            && BlockValid(base, b) && HeaderOk(m1, base, b) && m1.Keys == m.Keys && ChangedOnlyIn(m, m1, base, base + n)
            && Mapped(m1, base, n) && Mapped(m1, base, Len(b)) && Unowned(blocks, base, base + Len(b))
            && Unowned(blocks[base := b], base + BlockSize(c), base + n)
  {
    hide SizeToClass, Bytes64, HeaderOk, BlockSize, Store, ChangedOnlyIn, CacheSize;
    ClassGeometryStep(c);
    StoreChanges(m, base, Bytes64(size), base, base + n);
    SmallHeader(m, base, c, size);
    assert Len(Small(c, size)) == BlockSize(c);
  }

  lemma ClassGeometryStep(c: nat)
    requires c < NUM_CLASSES
    ensures BlockSize(c) >= 32 && BlockSize(c) % 16 == 0
  {
    ClassGeometry(c);
  }

  lemma NewKeepsLive(s: Space, m: Memory, lo: nat, hi: nat, a: nat, b: Block)
    requires SpaceOk(s) && Unowned(s.blocks, lo, hi) && ChangedOnlyIn(s.mem, m, lo, hi) && a !in s.blocks
    ensures KeepsLive(s, Space(m, s.blocks[a := b]), 0)
  {
    hide SpaceOk, Contents, Len, Peek;
    OthersKept(s, Space(m, s.blocks[a := b]), 0, lo, hi);
  }

  /** The start of the i-th block of a page. */
  function Nth(base: nat, c: nat, i: nat): nat {
    base + i * BlockSize(c)
  }

  lemma NthNext(base: nat, c: nat, i: nat)
    requires c < NUM_CLASSES && base % 16 == 0
    ensures Nth(base, c, i + 1) == Nth(base, c, i) + BlockSize(c)
    ensures Nth(base, c, 0) == base && Nth(base, c, 1) == base + BlockSize(c)
    ensures Nth(base, c, i) % 16 == 0 && Nth(base, c, i) >= base
  {
    ClassGeometryStep(c);
    hide BlockSize;
    Distribute(i + 1, 1, BlockSize(c));
    MultipleOf16(i, BlockSize(c));
    SumOf16(base, i * BlockSize(c));
  }

  lemma SumOf16(a: nat, b: nat)
    requires a % 16 == 0 && b % 16 == 0
    ensures (a + b) % 16 == 0
  {
  }

  lemma MultipleOf16(n: nat, k: nat)
    requires k % 16 == 0
    ensures (n * k) % 16 == 0
    ensures n * k >= 0
  {
    DivMod(k, 16);
    var q := k / 16;
    assert n * k == (n * q) * 16 by { Regroup(n, q, 16); }
    ModIs(n * k, 16, n * q, 0);
  }

  lemma Regroup(a: nat, b: nat, m: nat)
    ensures a * (b * m) == (a * b) * m && a * b >= 0 && (a * b) * m >= 0
  {
  }

  /** `bulk_init`: the next `n` blocks of the page become idle. */
  function Carve(blocks: map<nat, Block>, base: nat, c: nat, n: nat): map<nat, Block> {
    if n == 0 then blocks else Carve(blocks, base, c, n - 1)[Nth(base, c, n) := Idle(c)]
  }

  /** A page being carved: nothing is owned beyond the blocks cut so far. */
  ghost predicate Carvable(s: Space, base: nat, c: nat, n: nat, end: nat) {
    && SpaceOk(s) && base > 0 && base % 16 == 0 && c < NUM_CLASSES
    && Nth(base, c, n + 1) <= end && Mapped(s.mem, base, end - base)
  }

  lemma CarveOne(s: Space, base: nat, c: nat, n: nat, end: nat)
    requires Carvable(s, base, c, n, end) && n > 0 && Unowned(s.blocks, Nth(base, c, n), end)
    ensures var s' := Space(s.mem, s.blocks[Nth(base, c, n) := Idle(c)]);
            SpaceOk(s') && KeepsLive(s, s', 0) && Unowned(s'.blocks, Nth(base, c, n + 1), end)
                && Nth(base, c, n) !in s.blocks
  {
    hide SpaceOk, BlockSize, Load, User, Nth;
    ClassGeometryStep(c);
    NthNext(base, c, n);
    assert Len(Idle(c)) == BlockSize(c);
    AddKeeps(s, Nth(base, c, n), Idle(c));
  }

  lemma {:induction false} CarveKeeps(s: Space, base: nat, c: nat, n: nat, end: nat)
    requires Carvable(s, base, c, n, end) && Unowned(s.blocks, Nth(base, c, 1), end)
    ensures var s' := Space(s.mem, Carve(s.blocks, base, c, n));
            SpaceOk(s') && KeepsLive(s, s', 0) && Unowned(s'.blocks, Nth(base, c, n + 1), end)
            && forall a :: a in s.blocks ==> a in s'.blocks && s'.blocks[a] == s.blocks[a]
    decreases n
  {
    hide SpaceOk, BlockSize, Contents, Nth, Unowned;
    if n > 0 {
      NthNext(base, c, n);
      CarveKeeps(s, base, c, n - 1, end);
      var s1 := Space(s.mem, Carve(s.blocks, base, c, n - 1));
      CarveOne(s1, base, c, n, end);
      KeepsLiveTrans(s, s1, Space(s.mem, Carve(s.blocks, base, c, n)), 0);
    }
  }

  /** The idle blocks carving adds are the `n` blocks of the row, none of which was
      there before. */
  lemma {:induction false} CarveAdds(s: Space, base: nat, c: nat, n: nat, end: nat, row: seq<nat>)
    requires |row| == n && forall j :: 0 <= j < n ==> row[j] == Nth(base, c, j + 1)
    requires Carvable(s, base, c, n, end) && Unowned(s.blocks, Nth(base, c, 1), end)
    ensures var blocks' := Carve(s.blocks, base, c, n);
            && Distinct(row) && blocks'.Keys == s.blocks.Keys + (set x | x in row)
            && (forall x :: x in row ==> x !in s.blocks && x in blocks' && blocks'[x] == Idle(c))
            && (forall x :: x in s.blocks ==> x in blocks' && blocks'[x] == s.blocks[x])
    decreases n
  {
    hide SpaceOk, BlockSize, Contents, Nth, Unowned;
    if n > 0 {
      NthNext(base, c, n);
      var few, b := row[..n - 1], row[n - 1];
      CarveAdds(s, base, c, n - 1, end, few);
      CarveKeeps(s, base, c, n - 1, end);
      CarveOne(Space(s.mem, Carve(s.blocks, base, c, n - 1)), base, c, n, end);
      assert row == few + [b] && b !in few;
    }
  }

  // ------------------------------------------------------------------
  // Large mappings
  // ------------------------------------------------------------------

  function WritePageHeader(mem: Memory, a: nat, pages: nat, size: nat): (m: Memory)
    ensures m.Keys == mem.Keys
  {
    Store(Store(Store(mem, a, Bytes32(MAGIC)), a + 4, Bytes32(pages % WORD32)), a + 8, Bytes64(size))
  }

  function WriteLargeHeader(mem: Memory, a: nat, p: nat): (m: Memory)
    ensures m.Keys == mem.Keys
  {
    Store(Store(mem, Minus(p, 16), Bytes32(LARGE_MAGIC)), Minus(p, 8), Bytes64(a))
  }

  lemma PageHeaderWritten(mem: Memory, a: nat, pages: nat, size: nat)
    requires Mapped(mem, a, 16) && size < WORD
    ensures PageHeaderOk(WritePageHeader(mem, a, pages, size), a, pages, size)
    ensures ChangedOnlyIn(mem, WritePageHeader(mem, a, pages, size), a, a + 16)
  {
    hide Word32, Word64, Bytes32, Bytes64, Store, Peek;
    var m1 := Store(mem, a, Bytes32(MAGIC));
    var m2 := Store(m1, a + 4, Bytes32(pages % WORD32));
    var m3 := Store(m2, a + 8, Bytes64(size));
    Read32(mem, a, MAGIC);
    Read32(m1, a + 4, pages % WORD32);
    Read64(m2, a + 8, size);
    StoreOutside(m1, a + 4, Bytes32(pages % WORD32), a, a + 4);
    StoreOutside(m2, a + 8, Bytes64(size), a, a + 8);
    SameWord32(m1, m2, a);
    SameWord32(m2, m3, a);
    SameWord32(m2, m3, a + 4);
    StoreChanges(mem, a, Bytes32(MAGIC), a, a + 16);
    StoreChanges(m1, a + 4, Bytes32(pages % WORD32), a, a + 16);
    StoreChanges(m2, a + 8, Bytes64(size), a, a + 16);
    ChangedTrans(mem, m1, m2, a, a + 16);
    ChangedTrans(mem, m2, m3, a, a + 16);
  }

  lemma LargeHeaderWritten(mem: Memory, a: nat, p: nat)
    requires p >= 16 && Mapped(mem, p - 16, 16) && a < WORD
    ensures LargeHeaderOk(WriteLargeHeader(mem, a, p), a, p)
    ensures ChangedOnlyIn(mem, WriteLargeHeader(mem, a, p), p - 16, p)
  {
    hide Word32, Word64, Bytes32, Bytes64, Store, Peek;
    var m1 := Store(mem, p - 16, Bytes32(LARGE_MAGIC));
    var m2 := Store(m1, p - 8, Bytes64(a));
    Read32(mem, p - 16, LARGE_MAGIC);
    Read64(m1, p - 8, a);
    StoreOutside(m1, p - 8, Bytes64(a), p - 16, p - 8);
    SameWord32(m1, m2, p - 16);
    StoreChanges(mem, p - 16, Bytes32(LARGE_MAGIC), p - 16, p);
    StoreChanges(m1, p - 8, Bytes64(a), p - 16, p);
    ChangedTrans(mem, m1, m2, p - 16, p);
  }

  function NewLarge(s: Space, base: nat, size: nat, align: nat): Space {
    var pages := LargePages(size, align);
    var b := Large(pages, align, size);
    var m := MapRange(s.mem, base, pages * PAGE_SIZE);
    Space(WriteLargeHeader(WritePageHeader(m, base, pages, size), base, User(base, b)), s.blocks[base := b])
  }

  lemma LargeHeaders(m: Memory, base: nat, b: Block)
    requires b.Large? && BlockValid(base, b) && Mapped(m, base, Len(b))
    ensures var m' := WriteLargeHeader(WritePageHeader(m, base, b.pages, b.size), base, User(base, b));
            HeaderOk(m', base, b) && ChangedOnlyIn(m, m', base, base + Len(b))
  {
    hide Word32, Word64, Peek, User, WritePageHeader, WriteLargeHeader, LargePages;
    var p := User(base, b);
    LargeInside(base, b.pages, b.align, b.size);
    SizeIsWord(b.size, b.align);
    hide BlockValid;
    var m1 := WritePageHeader(m, base, b.pages, b.size);
    var m2 := WriteLargeHeader(m1, base, p);
    PageHeaderWritten(m, base, b.pages, b.size);
    LargeHeaderWritten(m1, base, p);
    SameWord32(m1, m2, base);
    SameWord32(m1, m2, base + 4);
    SameWord64(m1, m2, base + 8);
    assert ChangedOnlyIn(m, m1, base, base + Len(b));
    assert ChangedOnlyIn(m1, m2, base, base + Len(b));
    ChangedTrans(m, m1, m2, base, base + Len(b));
  }

  lemma SizeIsWord(size: nat, align: nat)
    requires ValidLayout(size, align)
    ensures size < WORD
  {
    hide IsPowerOfTwo;
    Pow2Word();
  }

  lemma NewLargeKeeps(s: Space, base: nat, size: nat, align: nat)
    requires SpaceOk(s) && size >= 1 && ValidLayout(size, align) && FreshPages(s.mem, base, LargePages(size, align))
    ensures var s' := NewLarge(s, base, size, align);
            SpaceOk(s') && KeepsLive(s, s', 0) && base !in s.blocks && BlockValid(base, s'.blocks[base])
  {
    hide SpaceOk, HeaderOk, KeepsLive, MapRange, ValidLayout, LargePages, WriteLargeHeader, WritePageHeader, Peek, User;
    var pages := LargePages(size, align);
    var n, b := pages * PAGE_SIZE, Large(pages, align, size);
    var m := MapRange(s.mem, base, n);
    MapKeeps(s, base, n);
    assert BlockValid(base, b);
    hide BlockValid;
    LargeHeaders(m, base, b);
    var m1 := NewLarge(s, base, size, align).mem;
    OutsideKeeps(Space(m, s.blocks), m1, base, base + n);
    AddKeeps(Space(m1, s.blocks), base, b);
    ChangedTrans(s.mem, m, m1, base, base + n);
    NewKeepsLive(s, m1, base, base + n, base, b);
  }

  // ------------------------------------------------------------------
  // Release
  // ------------------------------------------------------------------

  lemma FreeSmallKeeps(s: Space, a: nat)
    requires SpaceOk(s) && a in s.blocks && s.blocks[a].Small?
    ensures var s' := Space(s.mem, s.blocks[a := Idle(s.blocks[a].index)]);
            SpaceOk(s') && KeepsLive(s, s', a)
  {
    hide SpaceOk, KeepsLive, BlockSize, SizeToClass, Peek;
    BlockAt(s, a);
    ReplaceKeeps(s, s.mem, a, Idle(s.blocks[a].index));
    ReplaceKeepsLive(s, s.mem, a, Idle(s.blocks[a].index));
  }

  lemma FreeLargeKeeps(s: Space, a: nat, n: nat)
    requires SpaceOk(s) && a in s.blocks && n <= Len(s.blocks[a])
    ensures var s' := Space(UnmapRange(s.mem, a, n), s.blocks - {a});
            SpaceOk(s') && KeepsLive(s, s', a)
  {
    hide SpaceOk, Len;
    var m := UnmapRange(s.mem, a, n);
    var s1 := Space(s.mem, s.blocks - {a});
    RemoveKeeps(s, a);
    forall b | b in s1.blocks
      ensures b + Len(s1.blocks[b]) <= a || a + n <= b
    {
      Apart(s, a, b);
    }
    OutsideKeeps(s1, m, a, a + n);
    forall q | q in s.blocks && q != a
      ensures q + Len(s.blocks[q]) <= a || a + n <= q
    {
      Apart(s, a, q);
    }
    OthersKept(s, Space(m, s1.blocks), a, a, a + n);
  }

  /** The whole mapping is released exactly when its page count fits the 32 bits
      of the header. */
  lemma ReleasedInFullIff(mem: Memory, a: nat, pages: nat)
    requires Mapped(mem, a, pages * PAGE_SIZE) && pages > 0
    ensures var left := UnmapRange(mem, a, pages % WORD32 * PAGE_SIZE);
            (forall x: nat :: a <= x < a + pages * PAGE_SIZE ==> x !in left) <==> pages < WORD32
  {
    if pages >= WORD32 {
      var x := a + pages * PAGE_SIZE - 1;
      assert x in mem && x in UnmapRange(mem, a, pages % WORD32 * PAGE_SIZE);
    }
  }

  /** A request whose mapping is never released: 2^32 pages read back as 0. */
  lemma PageCountWraps()
    ensures ValidLayout(0xfff_ffff_ffd8, 8) && LargePages(0xfff_ffff_ffd8, 8) % WORD32 == 0
  {
    Pow2Word();
  }

  /** The user writes into a block in use. */
  lemma UserStoreKeeps(s: Space, a: nat, at: nat, v: seq<byte>)
    requires SpaceOk(s) && InUse(s, a)
    requires User(a, s.blocks[a]) <= at && at + |v| <= User(a, s.blocks[a]) + Requested(s.blocks[a])
    ensures var s' := Space(Store(s.mem, at, v), s.blocks);
            SpaceOk(s') && KeepsLive(s, s', a)
  {
    hide SpaceOk, KeepsLive, Store, User, HeaderOk, Peek, BlockValid, Len;
    var b, m := s.blocks[a], Store(s.mem, at, v);
    BlockAt(s, a);
    UserInside(a, b);
    StoreChanges(s.mem, at, v, a, a + Len(b));
    StoreChanges(s.mem, at, v, User(a, b), User(a, b) + Requested(b));
    OwnHeader(s.mem, m, a, b);
    assert s.blocks[a := b] == s.blocks;
    ReplaceKeeps(s, m, a, b);
    ReplaceKeepsLive(s, m, a, b);
  }

  /** Writes to the user's bytes leave the block's own header. */
  lemma OwnHeader(m: Memory, m': Memory, a: nat, b: Block)
    requires BlockValid(a, b) && !b.Idle? && HeaderOk(m, a, b)
    requires ChangedOnlyIn(m, m', User(a, b), User(a, b) + Requested(b))
    ensures HeaderOk(m', a, b)
  {
    hide BlockValid, Word32, Word64, Peek, User;
    UserInside(a, b);
    match b
    case Small(c, size) => SameWord64(m, m', a);
    case Large(pages, align, size) =>
      LargeInside(a, pages, align, size);
      var p := User(a, b);
      SameWord32(m, m', a);
      SameWord32(m, m', a + 4);
      SameWord64(m, m', a + 8);
      SameWord32(m, m', p - 16);
      SameWord64(m, m', p - 8);
  }

  // ------------------------------------------------------------------
  // Dispatch
  // ------------------------------------------------------------------

  /** What the 16 bytes before a live pointer say about its block. */
  lemma SmallDispatch(s: Space, a: nat, p: nat)
    requires SpaceOk(s) && PointsTo(s, p, a) && s.blocks[a].Small?
    ensures p == a + 16 && Mapped(s.mem, a, 16)
    ensures Word64(s.mem, a) == s.blocks[a].size && 1 <= s.blocks[a].size <= MAX_CACHE_SIZE
    ensures Word32(s.mem, a) != LARGE_MAGIC && Word32(s.mem, a) != MAGIC
    ensures SizeToClass(CacheSize(s.blocks[a].size)) == Some(s.blocks[a].index) && s.blocks[a].index < NUM_CLASSES
  {
    hide SpaceOk, Word32, Word64, BlockSize, SizeToClass, CacheSize, Peek;
    BlockAt(s, a);
    LenPositive(a, s.blocks[a]);
    LowHalf(s.mem, a);
    ClassIsStable(s.blocks[a].size);
  }

  lemma LargeDispatch(s: Space, a: nat, p: nat)
    requires SpaceOk(s) && PointsTo(s, p, a) && s.blocks[a].Large?
    ensures p >= a + 32 && Mapped(s.mem, p - 16, 16) && Mapped(s.mem, a, 16)
    ensures Word32(s.mem, p - 16) == LARGE_MAGIC && Word64(s.mem, p - 8) == a
    ensures PageHeaderOk(s.mem, a, s.blocks[a].pages, s.blocks[a].size)
  {
    hide SpaceOk, Word32, Word64, BlockSize, User, Peek;
    BlockAt(s, a);
    LargeInside(a, s.blocks[a].pages, s.blocks[a].align, s.blocks[a].size);
  }
}
