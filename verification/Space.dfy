/** The address space as the allocator sees it: blocks, in use or idle, each with
    the header its own path wrote, in disjoint ranges of mapped memory. */
module Space {
  import opened Bits
  import opened Common
  import opened BlockLayout
  import opened ByteMemory

  const MAGIC: nat := 0xA7E8A110
  const LARGE_MAGIC: nat := 0xA7E8A11F

  /** A small block of a class, cached or in use, or a large mapping in use. */
  datatype Block =
    | Idle(index: nat)
    | Small(index: nat, size: nat)
    | Large(pages: nat, align: nat, size: nat)

  /** `blocks` maps the start of each block's range, header included. */
  datatype Space = Space(mem: Memory, blocks: map<nat, Block>)

  /** Length of the block's whole range. */
  function Len(b: Block): nat {
    match b
    case Large(pages, _, _) => pages * PAGE_SIZE
    case _ => BlockSize(b.index)
  }

  /** The requested size. */
  function Requested(b: Block): nat {
    if b.Idle? then 0 else b.size
  }

  /** The pointer the caller holds for the block at `a`. */
  function User(a: nat, b: Block): nat {
    match b
    case Large(_, align, _) => if 1 <= align < WORD then LargeUserAddr(a, align) else 0
    case _ => a + CACHE_HEADER_SIZE
  }

  function Minus(p: nat, n: nat): nat {
    if n <= p then p - n else 0
  }

  ghost predicate BlockValid(a: nat, b: Block) {
    && a > 0 && a % 16 == 0
    && match b
       case Idle(c) => c < NUM_CLASSES
       case Small(c, size) => c < NUM_CLASSES && 1 <= size <= MAX_CACHE_SIZE && SizeToClass(size) == Some(c)
       case Large(pages, align, size) =>
         && a % PAGE_SIZE == 0 && 1 <= size && ValidLayout(size, align)
         && pages == LargePages(size, align) && a + pages * PAGE_SIZE <= WORD
  }

  ghost predicate HeaderOk(mem: Memory, a: nat, b: Block) {
    match b
    case Idle(_) => true
    case Small(_, size) => Word64(mem, a) == size
    case Large(pages, align, size) => PageHeaderOk(mem, a, pages, size) && LargeHeaderOk(mem, a, User(a, b))
  }

  ghost predicate PageHeaderOk(mem: Memory, a: nat, pages: nat, size: nat) {
    Word32(mem, a) == MAGIC && Word32(mem, a + 4) == pages % WORD32 && Word64(mem, a + 8) == size
  }

  ghost predicate LargeHeaderOk(mem: Memory, a: nat, p: nat) {
    Word32(mem, Minus(p, 16)) == LARGE_MAGIC && Word64(mem, Minus(p, 8)) == a
  }

  /** No block reaches into [lo, hi). */
  ghost predicate Unowned(blocks: map<nat, Block>, lo: nat, hi: nat) {
    forall b :: b in blocks ==> b + Len(blocks[b]) <= lo || hi <= b
  }

  ghost predicate SpaceOk(s: Space) {
    && (forall a :: a in s.blocks ==> BlockValid(a, s.blocks[a]))
    && (forall a :: a in s.blocks ==> Mapped(s.mem, a, Len(s.blocks[a])))
    && (forall a :: a in s.blocks ==> HeaderOk(s.mem, a, s.blocks[a]))
    && (forall a, b :: a in s.blocks && b in s.blocks && a < b ==> a + Len(s.blocks[a]) <= b)
  }

  ghost predicate InUse(s: Space, a: nat) {
    a in s.blocks && !s.blocks[a].Idle?
  }

  /** `p` is the live pointer to the block at `a`. */
  ghost predicate PointsTo(s: Space, p: nat, a: nat) {
    InUse(s, a) && User(a, s.blocks[a]) == p
  }

  ghost predicate LivePointer(s: Space, p: nat) {
    exists a :: PointsTo(s, p, a)
  }

  /** The user's bytes. */
  function Contents(s: Space, a: nat): seq<byte>
    requires a in s.blocks
  {
    Load(s.mem, User(a, s.blocks[a]), Requested(s.blocks[a]))
  }

  /** Every block in use but `except` is still in use, with the same bytes. */
  ghost predicate KeepsLive(s: Space, s': Space, except: nat) {
    forall q :: InUse(s, q) && q != except ==>
      q in s'.blocks && s'.blocks[q] == s.blocks[q] && Contents(s', q) == Contents(s, q)
  }

  // ------------------------------------------------------------------
  // Geometry of one block
  // ------------------------------------------------------------------

  lemma SmallInside(a: nat, c: nat, size: nat)
    requires BlockValid(a, Small(c, size))
    ensures a + 16 + size <= a + BlockSize(c)
    ensures (a + 16) % 16 == 0
  {
    hide Pow2, CacheSize, ClassSize, IsPowerOfTwo;
    FitsBelow63(size);
    SizeToClassIsLeastFit(size);
  }

  lemma LargeInside(a: nat, pages: nat, align: nat, size: nat)
    requires BlockValid(a, Large(pages, align, size))
    ensures var p := User(a, Large(pages, align, size));
            1 <= align < WORD && a + 32 <= p && p + size <= a + pages * PAGE_SIZE && p % 16 == 0 && p % align == 0
  {
    hide Pow2, IsPowerOfTwo, LargePages, LargeUserAddr;
    WordExceedsAlign(align);
    LargeFits(a, size, align);
  }

  /** The user bytes lie in the block, after a 16-byte header. */
  lemma UserInside(a: nat, b: Block)
    requires BlockValid(a, b) && !b.Idle?
    ensures a + 16 <= User(a, b) && User(a, b) + Requested(b) <= a + Len(b)
    ensures User(a, b) % 16 == 0
  {
    hide BlockValid, BlockSize;
    match b
    case Small(c, size) => SmallInside(a, c, size);
    case Large(pages, align, size) => LargeInside(a, pages, align, size);
  }

  lemma LenPositive(a: nat, b: Block)
    requires BlockValid(a, b)
    ensures Len(b) >= 32
  {
    hide Pow2, IsPowerOfTwo, ClassSize, LargePages, SizeToClass;
    match b
    case Large(pages, align, size) => LargePagesSuffice(size, align);
    case _ => ClassGeometry(b.index);
  }

  /** The header depends only on the block's own range. */
  lemma HeaderFrame(m: Memory, m': Memory, a: nat, b: Block)
    requires BlockValid(a, b) && HeaderOk(m, a, b) && Agree(m, m', a, a + Len(b))
    ensures HeaderOk(m', a, b)
  {
    hide BlockValid, Word32, Word64, Peek, User, BlockSize;
    LenPositive(a, b);
    match b
    case Idle(_) =>
    case Small(c, size) => SameWord64(m, m', a);
    case Large(pages, align, size) =>
      LargeInside(a, pages, align, size);
      var p := User(a, b);
      SameWord32(m, m', a);
      SameWord32(m, m', a + 4);
      SameWord64(m, m', a + 8);
      SameWord32(m, m', p - 16);
      SameWord64(m, m', p - 8);
  }

  lemma ContentsFrame(s: Space, s': Space, q: nat)
    requires InUse(s, q) && BlockValid(q, s.blocks[q]) && q in s'.blocks && s'.blocks[q] == s.blocks[q]
    requires Agree(s.mem, s'.mem, q, q + Len(s.blocks[q]))
    ensures Contents(s', q) == Contents(s, q)
  {
    hide BlockValid, Load, User, Peek, Len;
    UserInside(q, s.blocks[q]);
    SameLoad(s.mem, s'.mem, User(q, s.blocks[q]), Requested(s.blocks[q]));
  }

  lemma BlockAt(s: Space, a: nat)
    requires SpaceOk(s) && a in s.blocks
    ensures BlockValid(a, s.blocks[a]) && Mapped(s.mem, a, Len(s.blocks[a])) && HeaderOk(s.mem, a, s.blocks[a])
  {
    hide BlockValid, HeaderOk, Mapped;
  }

  lemma Apart(s: Space, a: nat, b: nat)
    requires SpaceOk(s) && a in s.blocks && b in s.blocks && a != b
    ensures a + Len(s.blocks[a]) <= b || b + Len(s.blocks[b]) <= a
  {
    hide BlockValid, HeaderOk, Mapped, Len;
  }

  /** Each live pointer belongs to one block. */
  lemma OwnerUnique(s: Space, p: nat, a: nat, b: nat)
    requires SpaceOk(s) && PointsTo(s, p, a) && PointsTo(s, p, b)
    ensures a == b
  {
    hide BlockValid, User, Len, SpaceOk;
    if a != b {
      Apart(s, a, b);
      BlockAt(s, a);
      BlockAt(s, b);
      UserInside(a, s.blocks[a]);
      UserInside(b, s.blocks[b]);
    }
  }

  ghost function Owner(s: Space, p: nat): (a: nat)
    requires LivePointer(s, p)
    ensures PointsTo(s, p, a)
  {
    var a: nat :| PointsTo(s, p, a);
    a
  }

  /** Live allocations never overlap, nor any header. */
  lemma UserRangesApart(s: Space, p: nat, q: nat)
    requires SpaceOk(s) && LivePointer(s, p) && LivePointer(s, q) && p != q
    ensures var a, b := s.blocks[Owner(s, p)], s.blocks[Owner(s, q)];
            p + Requested(a) <= q - 16 || q + Requested(b) <= p - 16
  {
    hide BlockValid, User, Len, SpaceOk;
    var a, b := Owner(s, p), Owner(s, q);
    Apart(s, a, b);
    BlockAt(s, a);
    BlockAt(s, b);
    UserInside(a, s.blocks[a]);
    UserInside(b, s.blocks[b]);
  }

  // ------------------------------------------------------------------
  // Steps on the space
  // ------------------------------------------------------------------

  /** Memory changed only inside [lo, hi). */
  ghost predicate ChangedOnlyIn(m: Memory, m': Memory, lo: nat, hi: nat) {
    forall x: nat :: !(lo <= x < hi) ==> Peek(m, x) == Peek(m', x)
  }

  /** A block changes its state; its range and everything outside stay. */
  lemma ReplaceKeeps(s: Space, m: Memory, a: nat, b: Block)
    requires SpaceOk(s) && a in s.blocks && Len(b) == Len(s.blocks[a]) && BlockValid(a, b) && HeaderOk(m, a, b)
    requires m.Keys == s.mem.Keys && ChangedOnlyIn(s.mem, m, a, a + Len(b))
    ensures SpaceOk(Space(m, s.blocks[a := b]))
  {
    hide BlockValid, HeaderOk, Len, Peek;
    var s' := Space(m, s.blocks[a := b]);
    forall q | q in s'.blocks
      ensures HeaderOk(m, q, s'.blocks[q])
    {
      if q != a {
        Apart(s, a, q);
        HeaderFrame(s.mem, m, q, s.blocks[q]);
      }
    }
  }

  /** Nothing outside the changed range is noticed by other owners. */
  lemma OthersKept(s: Space, s': Space, a: nat, lo: nat, hi: nat)
    requires SpaceOk(s) && ChangedOnlyIn(s.mem, s'.mem, lo, hi)
    requires forall q :: q in s.blocks && q != a ==>
             (q + Len(s.blocks[q]) <= lo || hi <= q) && q in s'.blocks && s'.blocks[q] == s.blocks[q]
    ensures KeepsLive(s, s', a)
  {
    hide BlockValid, HeaderOk, Len, Peek, Contents, Mapped;
    forall q | InUse(s, q) && q != a
      ensures q in s'.blocks && s'.blocks[q] == s.blocks[q] && Contents(s', q) == Contents(s, q)
    {
      ContentsFrame(s, s', q);
    }
  }

  lemma ReplaceKeepsLive(s: Space, m: Memory, a: nat, b: Block)
    requires SpaceOk(s) && a in s.blocks && Len(b) == Len(s.blocks[a])
    requires ChangedOnlyIn(s.mem, m, a, a + Len(b))
    ensures KeepsLive(s, Space(m, s.blocks[a := b]), a)
  {
    hide BlockValid, HeaderOk, Len, Peek, Contents, Mapped;
    OthersKept(s, Space(m, s.blocks[a := b]), a, a, a + Len(b));
  }

  /** New memory, or writes to memory no block owns. */
  lemma OutsideKeeps(s: Space, m: Memory, lo: nat, hi: nat)
    requires SpaceOk(s) && Unowned(s.blocks, lo, hi) && ChangedOnlyIn(s.mem, m, lo, hi)
    requires forall x :: x in s.mem && !(lo <= x < hi) ==> x in m
    ensures SpaceOk(Space(m, s.blocks))
  {
    hide BlockValid, HeaderOk, Len, Peek;
    forall q | q in s.blocks
      ensures HeaderOk(m, q, s.blocks[q])
    {
      HeaderFrame(s.mem, m, q, s.blocks[q]);
    }
  }

  /** A new block in mapped memory that no block owns. */
  lemma AddKeeps(s: Space, a: nat, b: Block)
    requires SpaceOk(s) && BlockValid(a, b) && HeaderOk(s.mem, a, b) && Mapped(s.mem, a, Len(b))
    requires Unowned(s.blocks, a, a + Len(b))
    ensures a !in s.blocks
    ensures SpaceOk(Space(s.mem, s.blocks[a := b]))
  {
    hide BlockValid, HeaderOk, Len, Mapped;
    LenPositive(a, b);
    if a in s.blocks {
      LenPositive(a, s.blocks[a]);
    }
  }

  lemma RemoveKeeps(s: Space, a: nat)
    requires SpaceOk(s)
    ensures SpaceOk(Space(s.mem, s.blocks - {a}))
  {
    hide BlockValid, HeaderOk, Len, Mapped;
  }

  lemma MappedAt(mem: Memory, a: nat, n: nat, x: nat)
    requires Mapped(mem, a, n) && a <= x < a + n
    ensures x in mem
  {
  }

  /** Memory that was not mapped belongs to no block. */
  lemma FreshIsUnowned(s: Space, lo: nat, hi: nat)
    requires SpaceOk(s) && lo < hi && forall x: nat :: lo <= x < hi ==> x !in s.mem
    ensures Unowned(s.blocks, lo, hi)
  {
    hide BlockValid, HeaderOk, Len, Mapped;
    forall b | b in s.blocks
      ensures b + Len(s.blocks[b]) <= lo || hi <= b
    {
      LenPositive(b, s.blocks[b]);
      var x := if b < lo then lo else b;
      if b < hi && lo < b + Len(s.blocks[b]) {
        MappedAt(s.mem, b, Len(s.blocks[b]), x);
      }
    }
  }
}
