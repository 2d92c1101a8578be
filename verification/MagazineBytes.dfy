/** The magazine machine over byte memory.

    Any number of threads run `malloc` and `free` of the default build on one
    shared memory: a thread that takes or carves a block writes the requested
    size into its header, and a thread that frees a pointer reads its header to
    find out what it is.  Programs write into their blocks in between.  The
    headers are right in every interleaving, and every allocation is one of the
    sequential allocator's. */
module MagazineBytes {
  import opened Bits
  import opened Common
  import opened BlockLayout
  import opened ByteMemory
  import opened MagazineMachine
  import opened MagazineProof
  import opened MagazineSafety
  import Space
  import SpaceSteps
  import CApi

  /** `want` is each thread's local variable `size`; `blocks` records what was
      carved or mapped and for which request it is in use. */
  datatype World = World(s: State, mem: Memory, want: map<Tid, nat>, blocks: map<nat, Space.Block>)

  const START := World(INITIAL, map[], map[], map[])

  function SpaceOf(w: World): Space.Space {
    Space.Space(w.mem, w.blocks)
  }

  function Want(w: World, t: Tid): nat { if t in w.want then w.want[t] else 0 }

  datatype Act =
    | CallMalloc(t: Tid, size: nat)
    | Move(t: Tid, choice: Choice)
    | CallFree(t: Tid, p: nat)
    | MapBig(size: nat, align: nat, base: nat)
    | Write(p: nat, at: nat, v: seq<byte>)

  /** The page source answers with pages that are not mapped. */
  ghost predicate MoveAllowed(w: World, t: Tid, choice: Choice) {
    match PcOf(w.s, t)
    case Miss(c) =>
      || choice.NoPage?
      || (choice.BulkPage? && BlocksPerPage(c) > 1 && SpaceSteps.FreshPages(w.mem, choice.base, 1))
      || (choice.SingleRun? && SpaceSteps.FreshPages(w.mem, choice.base, PagesForBlock(c)))
    case _ => GoEnabled(w.s, t, choice)
  }

  ghost predicate Allowed(w: World, a: Act) {
    match a
    case CallMalloc(t, size) => PcOf(w.s, t).Idle? && 1 <= size <= MAX_CACHE_SIZE
    case Move(t, choice) => MoveAllowed(w, t, choice)
    case CallFree(t, p) => PcOf(w.s, t).Idle? && Space.LivePointer(SpaceOf(w), p)
    case MapBig(size, align, base) =>
      && size >= 1 && ValidLayout(size, align) && !CApi.Cacheable(size, align)
      && SpaceSteps.FreshPages(w.mem, base, LargePages(size, align))
    case Write(p, at, v) =>
      && Space.LivePointer(SpaceOf(w), p)
      && at + |v| <= Space.Requested(w.blocks[Space.Owner(SpaceOf(w), p)])
  }

  /** What the sequential allocator would be answered where the thread stands. */
  ghost function AnswersAt(w: World, t: Tid, choice: Choice): CApi.Answers {
    var pc := PcOf(w.s, t);
    if pc.Miss? then
      CApi.Answers(None, if choice.BulkPage? then Some(choice.base) else None, if choice.SingleRun?
          then Some(choice.base) else None)
    else CApi.Answers(HandedOut(w.s, t, choice), None, None)
  }

  function IndexOf(x: seq<nat>, b: nat): nat {
    if x == [] || x[0] == b then 0 else 1 + IndexOf(x[1..], b)
  }

  /** The tests of `free` that lead to a size class. */
  predicate LooksSmall(mem: Memory, b: nat) {
    && 0 < Word64(mem, b) <= MAX_CACHE_SIZE && Word32(mem, b) != Space.MAGIC
    && SizeToClass(CacheSize(Word64(mem, b))).Some?
  }

  /** One act.  `free` decides by the bytes before the pointer. */
  ghost function Do(w: World, a: Act): World
    requires Allowed(w, a)
  {
    match a
    case CallMalloc(t, size) =>
      w.(s := Goto(w.s, t, TryLocal(ClassFor(CacheSize(size)))), want := w.want[t := size])
    case Move(t, choice) => Moved(w, t, choice)
    case CallFree(t, p) =>
      var b := Space.Minus(p, 16);
      if Word32(w.mem, b) == Space.LARGE_MAGIC then FreedLarge(w, Word64(w.mem, Space.Minus(p, 8)))
      else if LooksSmall(w.mem, b) then FreedSmall(w, t, b, ClassFor(CacheSize(Word64(w.mem, b))))
      else FreedLarge(w, p - p % PAGE_SIZE)
    case MapBig(size, align, base) =>
      var x := SpaceSteps.NewLarge(SpaceOf(w), base, size, align);
      w.(s := MapLargeStep(w.s, base, LargePages(size, align)), mem := x.mem, blocks := x.blocks)
    case Write(p, at, v) => w.(mem := Store(w.mem, p + at, v))
  }

  function MapLargeStep(s: State, base: nat, count: nat): State {
    s.(pages := s.pages + PageRun(base, count), large := s.large[base := count])
  }

  /** A step of a thread; where it hands out a block, the size is written. */
  ghost function Moved(w: World, t: Tid, choice: Choice): World
    requires MoveAllowed(w, t, choice)
  {
    var s' := if GoEnabled(w.s, t, choice) then GoStep(w.s, t, choice) else w.s;
    if HandedOut(w.s, t, choice) == None then w.(s := s')
    else
      var x := CApi.After(SpaceOf(w), Want(w, t), 8, AnswersAt(w, t, choice));
      w.(s := s', mem := x.mem, blocks := x.blocks)
  }

  /** The page header says how many pages to unmap. */
  ghost function FreedLarge(w: World, base: nat): World {
    var n := Word32(w.mem, base + 4);
    w.(s := if base in w.s.large then Apply(w.s, UnmapLarge(base)) else w.s,
       mem := if Word32(w.mem, base) == Space.MAGIC && n > 0 then UnmapRange(w.mem, base, n * PAGE_SIZE) else w.mem,
       blocks := w.blocks - {base})
  }

  /** The block is taken in hand, for the class its header says. */
  ghost function FreedSmall(w: World, t: Tid, b: nat, c: nat): World {
    var i := IndexOf(LiveBlocks(w.s), b);
    w.(s := if i < |LiveBlocks(w.s)| then InHandStep(w.s, t, i, c) else w.s, blocks := w.blocks[b := Space.Idle(c)])
  }

  // ------------------------------------------------------------------
  // The invariant
  // ------------------------------------------------------------------

  /** The thread is inside `alloc`. */
  predicate Allocating(pc: Pc) {
    AllocPoint(pc) || pc.PopLoad? || pc.PopNext? || pc.PopCas? || pc.HoldsPopped()
  }

  ghost predicate WantsOk(w: World) {
    forall t: Tid :: Allocating(PcOf(w.s, t)) ==> SpaceSteps.SmallRequest(PcOf(w.s, t).c, Want(w, t))
  }

  predicate PassedOver(s: State, b: nat) {
    b in s.carved && b in At(s.box, HadNoRoom(s.carved[b]))
  }

  /** The record agrees with the machine: every carved block that was not passed
      over is in use exactly if the machine has it live, for its own class. */
  ghost predicate BooksOk(w: World) {
    && (forall b :: b in w.blocks <==> (b in w.s.carved && !PassedOver(w.s, b)) || b in w.s.large)
    && (forall b :: b in w.s.carved && b in w.blocks ==> BookOk(w, b))
    && (forall b :: b in w.s.large && b in w.blocks ==> w.blocks[b].Large? && w.blocks[b].pages == w.s.large[b])
  }

  ghost predicate BookOk(w: World, b: nat)
    requires b in w.s.carved && b in w.blocks
  {
    if b in LiveBlocks(w.s) then w.blocks[b].Small? && w.blocks[b].index == w.s.carved[b]
    else w.blocks[b] == Space.Idle(w.s.carved[b])
  }

  ghost predicate PagesOk(w: World) {
    forall p :: p in w.s.pages ==> ByteMemory.Mapped(w.mem, p * PAGE_SIZE, PAGE_SIZE)
  }

  ghost predicate WorldInv(w: World, g: Aux) {
    Inv(w.s, g) && Space.SpaceOk(SpaceOf(w)) && WantsOk(w) && BooksOk(w) && PagesOk(w)
  }

  // ------------------------------------------------------------------
  // Steps that hand nothing out
  // ------------------------------------------------------------------

  /** What such a step leaves alone. */
  ghost predicate SameBooks(s: State, s': State) {
    && s'.carved == s.carved && s'.large == s.large && s'.pages == s.pages
    && LiveBlocks(s') == LiveBlocks(s)
    && forall c :: At(s'.box, HadNoRoom(c)) == At(s.box, HadNoRoom(c))
  }

  /** Only thread `t` moves, and it stays in `alloc` only with its class. */
  ghost predicate SamePoints(s: State, s': State, t: Tid) {
    && (forall u: Tid :: u != t ==> PcOf(s', u) == PcOf(s, u))
    && (Allocating(PcOf(s', t)) ==> Allocating(PcOf(s, t)) && PcOf(s', t).c == PcOf(s, t).c)
  }

  lemma GotoMapsNothing(s: State, t: Tid)
    ensures forall pc :: Goto(s, t, pc).carved == s.carved
    ensures forall pc :: Goto(s, t, pc).large == s.large
    ensures forall pc :: Goto(s, t, pc).pages == s.pages
  {
  }

  lemma PopFrame(s: State, t: Tid, choice: Choice)
    requires (PcOf(s, t).PopLoad? || PcOf(s, t).PopNext? || PcOf(s, t).PopCas?)
    ensures var s' := PopGo(s, t, choice); s'.carved == s.carved && s'.large == s.large && s'.pages == s.pages
  {
    hide At, Link, Next, Pour, AfterPopLoad, Goto;
    GotoMapsNothing(s, t);
  }

  lemma PopBoxes(s: State, t: Tid, choice: Choice, l: Place)
    requires (PcOf(s, t).PopLoad? || PcOf(s, t).PopNext? || PcOf(s, t).PopCas?) && (l == Live || l.HadNoRoom?)
    ensures At(PopGo(s, t, choice).box, l) == At(s.box, l)
  {
    hide Link, Next, AfterPopLoad, Goto;
    GotoFacts(s, t);
  }

  lemma PopPoints(s: State, t: Tid, choice: Choice)
    requires (PcOf(s, t).PopLoad? || PcOf(s, t).PopNext? || PcOf(s, t).PopCas?)
    ensures SamePoints(s, PopGo(s, t, choice), t)
  {
    hide At, Link, Next, Pour, Goto;
    GotoFacts(s, t);
  }

  lemma QuietPop(s: State, t: Tid, choice: Choice)
    requires GoEnabled(s, t, choice) && (PcOf(s, t).PopLoad? || PcOf(s, t).PopNext? || PcOf(s, t).PopCas?)
    ensures SameBooks(s, GoStep(s, t, choice)) && SamePoints(s, GoStep(s, t, choice), t)
  {
    hide GoStep, GoEnabled, PopGo, SamePoints, At;
    GoesPop(s, t, choice);
    PopFrame(s, t, choice);
    PopPoints(s, t, choice);
    forall l: Place | l == Live || l.HadNoRoom?
      ensures At(PopGo(s, t, choice).box, l) == At(s.box, l)
    {
      PopBoxes(s, t, choice, l);
    }
  }

  lemma PourLeaves(box: Boxes, from: Place, to: Place, l: Place)
    requires l != from && l != to
    ensures At(Pour(box, from, to), l) == At(box, l)
  {
  }

  lemma EmptyFrame(s: State, t: Tid, choice: Choice)
    requires PcOf(s, t).HoldsPopped()
    ensures var s' := EmptyGo(s, t, choice); s'.carved == s.carved && s'.large == s.large && s'.pages == s.pages
  {
    hide At, Link, Next, Pour, AfterPopLoad, Goto;
    GotoMapsNothing(s, t);
  }

  lemma EmptyBoxes(s: State, t: Tid, choice: Choice, l: Place)
    requires PcOf(s, t).HoldsPopped() && (l == Live || l.HadNoRoom?)
    ensures At(EmptyGo(s, t, choice).box, l) == At(s.box, l)
  {
    hide At, Pour, Link, Next, AfterPopLoad, Goto;
    GotoFacts(s, t);
    var pc := PcOf(s, t);
    if pc.Exchange? {
      PourLeaves(s.box, InNode(pc.node), InAlloc(t, pc.c), l);
    }
  }

  lemma EmptyPoints(s: State, t: Tid, choice: Choice)
    requires PcOf(s, t).HoldsPopped()
    ensures SamePoints(s, EmptyGo(s, t, choice), t)
  {
    hide At, Link, Next, Pour, Goto;
    GotoFacts(s, t);
  }

  lemma QuietEmpty(s: State, t: Tid, choice: Choice)
    requires GoEnabled(s, t, choice) && PcOf(s, t).HoldsPopped()
    ensures SameBooks(s, GoStep(s, t, choice)) && SamePoints(s, GoStep(s, t, choice), t)
  {
    hide GoStep, GoEnabled, EmptyGo, SamePoints, At;
    GoesEmpty(s, t, choice);
    EmptyFrame(s, t, choice);
    EmptyPoints(s, t, choice);
    forall l: Place | l == Live || l.HadNoRoom?
      ensures At(EmptyGo(s, t, choice).box, l) == At(s.box, l)
    {
      EmptyBoxes(s, t, choice, l);
    }
  }

  lemma FullFrame(s: State, t: Tid, choice: Choice)
    requires PcOf(s, t).HoldsNew()
    ensures var s' := FullGo(s, t, choice); s'.carved == s.carved && s'.large == s.large && s'.pages == s.pages
  {
    hide At, Link, Next, Pour, AfterPopLoad, Goto;
    GotoMapsNothing(s, t);
  }

  lemma FullBoxes(s: State, t: Tid, choice: Choice, l: Place)
    requires PcOf(s, t).HoldsNew() && (l == Live || l.HadNoRoom?)
    ensures At(FullGo(s, t, choice).box, l) == At(s.box, l)
  {
    hide At, Pour, Link, Next, AfterPopLoad, Goto;
    GotoFacts(s, t);
    var pc := PcOf(s, t);
    if pc.Fill? {
      PourLeaves(s.box, InFree(t, pc.c), InNode(pc.node), l);
    }
  }

  lemma FullPoints(s: State, t: Tid, choice: Choice)
    requires PcOf(s, t).HoldsNew()
    ensures SamePoints(s, FullGo(s, t, choice), t)
  {
    hide At, Link, Next, Pour, Goto;
    GotoFacts(s, t);
  }

  lemma QuietFull(s: State, t: Tid, choice: Choice)
    requires GoEnabled(s, t, choice) && PcOf(s, t).HoldsNew()
    ensures SameBooks(s, GoStep(s, t, choice)) && SamePoints(s, GoStep(s, t, choice), t)
  {
    hide GoStep, GoEnabled, FullGo, SamePoints, At;
    GoesFull(s, t, choice);
    FullFrame(s, t, choice);
    FullPoints(s, t, choice);
    forall l: Place | l == Live || l.HadNoRoom?
      ensures At(FullGo(s, t, choice).box, l) == At(s.box, l)
    {
      FullBoxes(s, t, choice, l);
    }
  }

  /** At the points of `alloc`, where nothing is handed out. */
  lemma QuietAlloc(s: State, t: Tid, choice: Choice)
    requires GoEnabled(s, t, choice) && AllocPoint(PcOf(s, t)) && HandedOut(s, t, choice) == None
    ensures SameBooks(s, GoStep(s, t, choice)) && SamePoints(s, GoStep(s, t, choice), t)
  {
    hide GoStep, Goto, SameBooks, SamePoints, AllocMag, FreeMag;
    var c := PcOf(s, t).c;
    GoesAlloc(s, t, choice);
    if PcOf(s, t).Miss? {
      GotoBooks(s, t, Idle);
    } else if PcOf(s, t).TryLocal? && FreeMag(s, t, c) != [] {
      SwapBooks(s, t, c);
    } else if PcOf(s, t).TakePopped? {
      GotoBooks(s, t, Miss(c));
    } else {
      GotoBooks(s, t, PopLoad(c));
    }
  }

  lemma GotoBooks(s: State, t: Tid, pc: Pc)
    requires Allocating(pc) ==> Allocating(PcOf(s, t)) && pc.c == PcOf(s, t).c
    ensures SameBooks(s, Goto(s, t, pc)) && SamePoints(s, Goto(s, t, pc), t)
  {
    hide Allocating, At;
  }

  lemma SwapBooks(s: State, t: Tid, c: nat)
    requires PcOf(s, t) == TryLocal(c)
    ensures var s' := Goto(s, t, TakeSwapped(c)).(box := s.box[InAlloc(t, c) := FreeMag(s, t, c)][InFree(t, c) :=
            AllocMag(s, t, c)]);
            SameBooks(s, s') && SamePoints(s, s', t)
  {
  }

  lemma QuietPut(s: State, t: Tid, c: nat)
    ensures SameBooks(s, PutStep(s, t, c)) && SamePoints(s, PutStep(s, t, c), t)
  {
    hide Shift, PutTarget;
    if At(s.box, InHand(t, c)) != [] {
      forall l | l == Live || l.HadNoRoom?
        ensures At(PutStep(s, t, c).box, l) == At(s.box, l)
      {
        assert l != PutTarget(s, t, c) by { TargetIsLocal(s, t, c); }
        ShiftElsewhere(s.box, InHand(t, c), 0, PutTarget(s, t, c), l);
      }
    }
  }

  lemma TargetIsLocal(s: State, t: Tid, c: nat)
    ensures PutTarget(s, t, c) == InFree(t, c) || PutTarget(s, t, c) == Leaked
  {
  }

  lemma QuietFree(s: State, t: Tid, choice: Choice)
    requires GoEnabled(s, t, choice) && (PcOf(s, t).TryPut? || PcOf(s, t).NeedNode? || PcOf(s, t).PutLocal?)
    ensures SameBooks(s, GoStep(s, t, choice)) && SamePoints(s, GoStep(s, t, choice), t)
  {
    hide GoStep, PutStep, Goto, At;
    GoesFree(s, t, choice);
    GotoFacts(s, t);
    QuietPut(s, t, PcOf(s, t).c);
    hide GoEnabled;
  }

  lemma QuietGo(s: State, t: Tid, choice: Choice)
    requires GoEnabled(s, t, choice) && HandedOut(s, t, choice) == None
    ensures SameBooks(s, GoStep(s, t, choice)) && SamePoints(s, GoStep(s, t, choice), t)
  {
    hide GoStep, SameBooks, SamePoints, HandedOut;
    var pc := PcOf(s, t);
    if AllocPoint(pc) {
      QuietAlloc(s, t, choice);
    } else if pc.PopLoad? || pc.PopNext? || pc.PopCas? {
      QuietPop(s, t, choice);
    } else if pc.HoldsPopped() {
      QuietEmpty(s, t, choice);
    } else if pc.HoldsNew() {
      QuietFull(s, t, choice);
    } else {
      QuietFree(s, t, choice);
    }
  }

  lemma BooksFrame(w: World, s': State)
    requires BooksOk(w) && SameBooks(w.s, s')
    ensures BooksOk(w.(s := s'))
  {
    var w' := w.(s := s');
    forall b
      ensures b in w'.s.carved ==> (PassedOver(w'.s, b) <==> PassedOver(w.s, b))
    {
    }
    forall b | b in w'.s.carved && b in w'.blocks
      ensures BookOk(w', b)
    {
      assert BookOk(w, b);
    }
  }

  lemma WantsFrame(w: World, s': State, t: Tid)
    requires WantsOk(w) && SamePoints(w.s, s', t)
    ensures WantsOk(w.(s := s'))
  {
    hide SpaceSteps.SmallRequest;
    var w' := w.(s := s');
    forall u: Tid | Allocating(PcOf(w'.s, u))
      ensures SpaceSteps.SmallRequest(PcOf(w'.s, u).c, Want(w', u))
    {
      assert Allocating(PcOf(w.s, u));
    }
  }

  /** A step that hands nothing out changes no memory. */
  lemma QuietMoveKeeps(w: World, g: Aux, t: Tid, choice: Choice)
    requires WorldInv(w, g) && GoEnabled(w.s, t, choice) && HandedOut(w.s, t, choice) == None
    ensures WorldInv(w.(s := GoStep(w.s, t, choice)), AuxGo(w.s, g, t, choice))
  {
    hide Inv, GoStep, AuxGo, Space.SpaceOk, HandedOut, GoEnabled;
    GoKeepsInv(w.s, g, t, choice);
    QuietGo(w.s, t, choice);
    BooksFrame(w, GoStep(w.s, t, choice));
    WantsFrame(w, GoStep(w.s, t, choice), t);
  }

  // ------------------------------------------------------------------
  // Fresh pages
  // ------------------------------------------------------------------

  /** Pages not mapped in memory are not in the machine's books. */
  lemma FreshInBooks(w: World, base: nat, n: nat)
    requires PagesOk(w) && SpaceSteps.FreshPages(w.mem, base, n)
    ensures FreshRun(w.s, base, n)
  {
    forall p | p in PageRun(base, n)
      ensures p !in w.s.pages
    {
      if p in w.s.pages {
        Space.MappedAt(w.mem, p * PAGE_SIZE, PAGE_SIZE, p * PAGE_SIZE);
        RunAddress(base, n, p);
      }
    }
  }

  lemma RunAddress(base: nat, n: nat, p: nat)
    requires base % PAGE_SIZE == 0 && InRun(p, base, n)
    ensures base <= p * PAGE_SIZE && p * PAGE_SIZE + PAGE_SIZE <= base + n * PAGE_SIZE
  {
  }

  lemma MoveIsEnabled(w: World, t: Tid, choice: Choice)
    requires PagesOk(w) && MoveAllowed(w, t, choice)
    ensures GoEnabled(w.s, t, choice)
  {
    hide PagesOk, SpaceSteps.FreshPages, FreshRun, BlocksPerPage, PagesForBlock;
    if PcOf(w.s, t).Miss? {
      if choice.BulkPage? {
        FreshInBooks(w, choice.base, 1);
      } else if choice.SingleRun? {
        FreshInBooks(w, choice.base, PagesForBlock(PcOf(w.s, t).c));
      }
    }
  }

  /** Mapping more pages keeps the books' pages mapped. */
  lemma PagesMapped(w: World, w': World, base: nat, n: nat)
    requires PagesOk(w) && base % PAGE_SIZE == 0 && ByteMemory.Mapped(w'.mem, base, n * PAGE_SIZE)
    requires w'.s.pages == w.s.pages + PageRun(base, n) && forall x :: x in w.mem ==> x in w'.mem
    ensures PagesOk(w')
  {
    forall p | p in w'.s.pages
      ensures ByteMemory.Mapped(w'.mem, p * PAGE_SIZE, PAGE_SIZE)
    {
      if p !in w.s.pages {
        assert p in PageRun(base, n);
        RunAddress(base, n, p);
      }
    }
  }

  // ------------------------------------------------------------------
  // A block from the magazine
  // ------------------------------------------------------------------

  /** What a thread at a taking point is handed is an idle block of its class. */
  lemma TakenIsIdle(w: World, g: Aux, t: Tid, b: nat)
    requires Inv(w.s, g) && BooksOk(w) && AllocPoint(PcOf(w.s, t)) && b in AllocMag(w.s, t, PcOf(w.s, t).c)
    ensures b in w.s.carved && b in w.blocks && w.blocks[b] == Space.Idle(PcOf(w.s, t).c)
  {
    hide StacksOk, NodesOk, ThreadsOk, SizesOk, MemoryOk, BlocksIn;
    var c := PcOf(w.s, t).c;
    var mag := AllocMag(w.s, t, c);
    var i :| 0 <= i < |mag| && mag[i] == b;
    InCarved(w.s, g, InAlloc(t, c), i);
    OnePlace(w.s, g, InAlloc(t, c), Live, b);
    OnePlace(w.s, g, InAlloc(t, c), HadNoRoom(c), b);
    assert BookOk(w, b);
  }

  lemma TakeBooks(s: State, t: Tid, c: nat, otherwise: Pc)
    requires AllocMag(s, t, c) != []
    ensures var s', mag := TakeStep(s, t, c, otherwise), AllocMag(s, t, c);
            && s'.carved == s.carved && s'.large == s.large && s'.pages == s.pages
            && LiveBlocks(s') == LiveBlocks(s) + [mag[|mag| - 1]]
            && forall d :: At(s'.box, HadNoRoom(d)) == At(s.box, HadNoRoom(d))
    ensures SamePoints(s, TakeStep(s, t, c, otherwise), t)
  {
  }

  /** Handing out block `b` for a request of `size`. */
  lemma TakeKeepsBooks(w: World, w': World, b: nat, c: nat, size: nat)
    requires BooksOk(w) && b in w.s.carved && b in w.blocks && w.s.carved[b] == c && b !in w.s.large
    requires w'.s.carved == w.s.carved && w'.s.large == w.s.large && LiveBlocks(w'.s) == LiveBlocks(w.s) + [b]
    requires forall d :: At(w'.s.box, HadNoRoom(d)) == At(w.s.box, HadNoRoom(d))
    requires w'.blocks == w.blocks[b := Space.Small(c, size)]
    ensures BooksOk(w')
  {
    forall x
      ensures x in w.s.carved ==> (PassedOver(w'.s, x) <==> PassedOver(w.s, x))
    {
    }
    forall x | x in w'.s.carved && x in w'.blocks
      ensures BookOk(w', x)
    {
      assert BookOk(w, x);
    }
  }

  lemma SmallIsNotLarge(w: World, b: nat)
    requires BooksOk(w) && b in w.s.carved && b in w.blocks
    ensures b !in w.s.large
  {
    assert BookOk(w, b);
  }

  lemma TakeMoveKeeps(w: World, g: Aux, t: Tid, c: nat)
    requires WorldInv(w, g) && AllocMag(w.s, t, c) != []
    requires PcOf(w.s, t) == TryLocal(c) || PcOf(w.s, t) == TakeSwapped(c) || PcOf(w.s, t) == TakePopped(c)
    ensures MoveAllowed(w, t, Proceed) && GoEnabled(w.s, t, Proceed)
    ensures var w' := Moved(w, t, Proceed);
            && WorldInv(w', AuxGo(w.s, g, t, Proceed)) && Space.KeepsLive(SpaceOf(w), SpaceOf(w'), 0)
  {
    hide Inv, GoStep, TakeStep, AuxGo, Space.SpaceOk, Space.KeepsLive, BooksOk, SpaceSteps.TakeIdle;
    var otherwise := if PcOf(w.s, t).TakePopped? then Miss(c) else PopLoad(c);
    var mag := AllocMag(w.s, t, c);
    var b, size, w' := mag[|mag| - 1], Want(w, t), Moved(w, t, Proceed);
    TakeIs(w.s, t, c, otherwise);
    GoKeepsInv(w.s, g, t, Proceed);
    TakenIsIdle(w, g, t, b);
    CarvedClass(w, g, t, b);
    SmallIsNotLarge(w, b);
    assert SpaceSteps.SmallRequest(c, size);
    TakeIsAfter(w, t, b, c, size);
    SpaceSteps.TakeIdleKeeps(SpaceOf(w), b, c, size);
    TakeBooks(w.s, t, c, otherwise);
    TakenSpace(w, w', b, c, size);
    TakeKeepsBooks(w, w', b, c, size);
    WantsFrame(w, w'.s, t);
  }

  lemma CarvedClass(w: World, g: Aux, t: Tid, b: nat)
    requires Inv(w.s, g) && AllocPoint(PcOf(w.s, t)) && b in AllocMag(w.s, t, PcOf(w.s, t).c)
    ensures b in w.s.carved && w.s.carved[b] == PcOf(w.s, t).c
  {
    hide StacksOk, NodesOk, ThreadsOk, SizesOk, MemoryOk, BlocksIn;
    var mag := AllocMag(w.s, t, PcOf(w.s, t).c);
    var i :| 0 <= i < |mag| && mag[i] == b;
    InCarved(w.s, g, InAlloc(t, PcOf(w.s, t).c), i);
  }

  lemma ClassOfRequest(c: nat, size: nat)
    requires SpaceSteps.SmallRequest(c, size)
    ensures ClassFor(size) == c && CApi.Cacheable(size, 8)
  {
    hide SizeToClass;
  }

  lemma TakeIsAfter(w: World, t: Tid, b: nat, c: nat, size: nat)
    requires SpaceSteps.SmallRequest(c, size) && size == Want(w, t) && !PcOf(w.s, t).Miss?
    requires HandedOut(w.s, t, Proceed) == Some(b)
    ensures CApi.After(SpaceOf(w), size, 8, AnswersAt(w, t, Proceed)) == SpaceSteps.TakeIdle(SpaceOf(w), b, c, size)
  {
    hide SpaceSteps.SmallRequest, SpaceSteps.TakeIdle, ClassFor, HandedOut;
    ClassOfRequest(c, size);
  }

  lemma TakenSpace(w: World, w': World, b: nat, c: nat, size: nat)
    requires SpaceOf(w') == SpaceSteps.TakeIdle(SpaceOf(w), b, c, size) && PagesOk(w) && w'.s.pages == w.s.pages
    ensures w'.blocks == w.blocks[b := Space.Small(c, size)] && PagesOk(w')
  {
  }

  // ------------------------------------------------------------------
  // A block from fresh pages
  // ------------------------------------------------------------------

  lemma BlocksAreMapped(w: World, b: nat)
    requires Space.SpaceOk(SpaceOf(w)) && b in w.blocks
    ensures b in w.mem
  {
    hide Space.SpaceOk, Space.BlockValid, Space.HeaderOk, Space.Len, ByteMemory.Mapped;
    Space.BlockAt(SpaceOf(w), b);
    Space.LenPositive(b, w.blocks[b]);
    Space.MappedAt(w.mem, b, Space.Len(w.blocks[b]), b);
  }

  /** Nothing recorded starts inside fresh pages. */
  lemma NothingInFresh(w: World, base: nat, n: nat, x: nat)
    requires Space.SpaceOk(SpaceOf(w)) && BooksOk(w) && SpaceSteps.FreshPages(w.mem, base, n)
    requires base <= x < base + n * PAGE_SIZE
    ensures x !in w.blocks && x !in w.s.large
  {
    hide Space.SpaceOk;
    if x in w.blocks {
      BlocksAreMapped(w, x);
    }
  }

  // One block at the start of a run

  lemma SingleBooks(s: State, t: Tid, c: nat, base: nat)
    ensures var s' := CarveSingle(Goto(s, t, Idle), c, base);
            && s'.carved == s.carved[base := c] && s'.large == s.large
            && s'.pages == s.pages + PageRun(base, PagesForBlock(c)) && LiveBlocks(s') == LiveBlocks(s) + [base]
            && forall d :: At(s'.box, HadNoRoom(d)) == At(s.box, HadNoRoom(d))
    ensures SamePoints(s, CarveSingle(Goto(s, t, Idle), c, base), t)
  {
    hide PagesForBlock, PageRun;
  }

  lemma NotPassedOver(s: State, g: Aux, b: nat, d: nat)
    requires Inv(s, g) && b !in s.carved
    ensures b !in At(s.box, HadNoRoom(d))
  {
    hide StacksOk, NodesOk, ThreadsOk, SizesOk, MemoryOk;
    assert b in At(s.box, HadNoRoom(d)) ==> b in g.place;
  }

  lemma SingleKeepsBooks(w: World, w': World, g: Aux, c: nat, base: nat, size: nat)
    requires Inv(w.s, g) && BooksOk(w) && base !in w.s.carved && base !in w.blocks && base !in w.s.large
    requires w'.s.carved == w.s.carved[base := c] && w'.s.large == w.s.large
    requires LiveBlocks(w'.s) == LiveBlocks(w.s) + [base]
    requires forall d :: At(w'.s.box, HadNoRoom(d)) == At(w.s.box, HadNoRoom(d))
    requires w'.blocks == w.blocks[base := Space.Small(c, size)]
    ensures BooksOk(w')
  {
    hide Inv, At, LiveBlocks;
    NotPassedOver(w.s, g, base, c);
    forall x
      ensures PassedOver(w'.s, x) <==> PassedOver(w.s, x)
    {
    }
    hide PassedOver;
    forall x | x in w'.s.carved && x in w'.blocks
      ensures BookOk(w', x)
    {
      if x != base {
        assert BookOk(w, x);
      }
    }
  }

  lemma SingleMoveKeeps(w: World, g: Aux, t: Tid, c: nat, base: nat)
    requires WorldInv(w, g) && PcOf(w.s, t) == Miss(c) && SpaceSteps.FreshPages(w.mem, base, PagesForBlock(c))
    ensures MoveAllowed(w, t, SingleRun(base)) && GoEnabled(w.s, t, SingleRun(base))
    ensures var w' := Moved(w, t, SingleRun(base));
            && WorldInv(w', AuxGo(w.s, g, t, SingleRun(base))) && Space.KeepsLive(SpaceOf(w), SpaceOf(w'), 0)
  {
    hide Inv, GoStep, CarveSingle, AuxGo, Space.SpaceOk, Space.KeepsLive, BooksOk, SpaceSteps.NewSmall;
    hide SpaceSteps.FreshPages, PagesForBlock, PageRun, FreshRun, PagesOk;
    var size, w', n := Want(w, t), Moved(w, t, SingleRun(base)), PagesForBlock(c);
    MoveIsEnabled(w, t, SingleRun(base));
    MissIs(w.s, t, c, base);
    GoKeepsInv(w.s, g, t, SingleRun(base));
    StepHandsOut(w.s, g, t, SingleRun(base));
    assert SpaceSteps.SmallRequest(c, size);
    MissIsAfter(w, t, c, base, size);
    CApi.RunFits(c);
    FreshBase(w, base, n);
    NothingInFresh(w, base, n, base);
    SpaceSteps.NewSmallKeeps(SpaceOf(w), base, n, c, size);
    SingleBooks(w.s, t, c, base);
    NewSmallIs(w, base, n, c, size);
    NewBaseNotCarved(w, g, t, c, base);
    SingleKeepsBooks(w, w', g, c, base, size);
    WantsFrame(w, w'.s, t);
    PagesMapped(w, w', base, n);
  }

  lemma FreshBase(w: World, base: nat, n: nat)
    requires SpaceSteps.FreshPages(w.mem, base, n)
    ensures base % PAGE_SIZE == 0 && base < base + n * PAGE_SIZE
  {
  }

  lemma NewSmallIs(w: World, base: nat, n: nat, c: nat, size: nat)
    ensures var x := SpaceSteps.NewSmall(SpaceOf(w), base, n, c, size);
            x.blocks == w.blocks[base := Space.Small(c, size)] && forall y :: y in w.mem ==> y in x.mem
  {
    hide MapRange, Bytes64;
  }

  lemma NewBaseNotCarved(w: World, g: Aux, t: Tid, c: nat, base: nat)
    requires Inv(w.s, g) && PcOf(w.s, t) == Miss(c) && FreshRun(w.s, base, PagesForBlock(c))
    ensures base !in w.s.carved
  {
    hide Inv, PagesForBlock, FreshRun, MemoryOk;
    MissFacts(w.s, g, t);
    SingleMemory(w.s, c, base);
  }

  lemma MissIs(s: State, t: Tid, c: nat, base: nat)
    requires PcOf(s, t) == Miss(c)
    ensures GoEnabled(s, t, SingleRun(base)) ==> GoStep(s, t, SingleRun(base)) == CarveSingle(Goto(s, t, Idle), c, base)
    ensures GoEnabled(s, t, BulkPage(base)) ==>
              BlocksPerPage(c) > 1 && GoStep(s, t, BulkPage(base)) == CarvePage(Goto(s, t, Idle), t, c, base)
  {
    hide GoStep, CarveSingle, CarvePage, PagesForBlock, BlocksPerPage, FreshRun, Goto;
    if GoEnabled(s, t, SingleRun(base)) {
      GoesAlloc(s, t, SingleRun(base));
    }
    if GoEnabled(s, t, BulkPage(base)) {
      GoesAlloc(s, t, BulkPage(base));
    }
  }

  lemma MissIsAfter(w: World, t: Tid, c: nat, base: nat, size: nat)
    requires SpaceSteps.SmallRequest(c, size) && size == Want(w, t) && PcOf(w.s, t) == Miss(c)
    ensures CApi.After(SpaceOf(w), size, 8, AnswersAt(w, t, SingleRun(base)))
         == SpaceSteps.NewSmall(SpaceOf(w), base, PagesForBlock(c), c, size)
    ensures BlocksPerPage(c) > 1 ==>
              CApi.After(SpaceOf(w), size, 8, AnswersAt(w, t, BulkPage(base))) == CApi.PageCarved(SpaceOf(w), base, c,
                  size)
  {
    hide SpaceSteps.SmallRequest, SpaceSteps.NewSmall, CApi.PageCarved, ClassFor, PagesForBlock, BlocksPerPage;
    ClassOfRequest(c, size);
  }

  // A page cut into blocks

  /** The blocks of a page, and those among them that find room. */
  predicate OfPage(base: nat, c: nat, from: nat, to: nat, x: nat) {
    exists i: nat :: from <= i < to && x == SpaceSteps.Nth(base, c, i)
  }

  lemma {:induction false} CarvedKeys(blocks: map<nat, Space.Block>, base: nat, c: nat, n: nat, x: nat)
    ensures var m := SpaceSteps.Carve(blocks, base, c, n);
            && (x in m <==> x in blocks || OfPage(base, c, 1, n + 1, x))
            && (x in m && OfPage(base, c, 1, n + 1, x) ==> m[x] == Space.Idle(c))
            && (x in m && !OfPage(base, c, 1, n + 1, x) ==> m[x] == blocks[x])
    decreases n
  {
    hide SpaceSteps.Nth;
    if n > 0 {
      CarvedKeys(blocks, base, c, n - 1, x);
      assert OfPage(base, c, 1, n + 1, x) <==> OfPage(base, c, 1, n, x) || x == SpaceSteps.Nth(base, c, n) by {
        if x == SpaceSteps.Nth(base, c, n) {
          assert 1 <= n < n + 1;
        }
      }
    }
  }

  lemma NthDistinct(base: nat, c: nat, i: nat, j: nat)
    requires i < j
    ensures SpaceSteps.Nth(base, c, i) < SpaceSteps.Nth(base, c, j)
  {
    BlockSizePositive(c);
    hide BlockSize;
    Distribute(j, i, BlockSize(c));
    MulAtLeast(j - i, BlockSize(c));
  }

  /** What carving a page does to the machine's books. */
  ghost predicate BulkBooks(s: State, s': State, c: nat, base: nat) {
    && s'.large == s.large && s'.pages == s.pages + PageRun(base, 1)
    && (forall b :: b in s'.carved <==> b in s.carved || OfPage(base, c, 0, BlocksPerPage(c), b))
    && (forall b :: b in s'.carved ==> s'.carved[b] == if OfPage(base, c, 0, BlocksPerPage(c), b) then c
        else s.carved[b])
    && LiveBlocks(s') == LiveBlocks(s) + [base]
    && (forall d, b :: b in At(s'.box, HadNoRoom(d)) <==>
          b in At(s.box, HadNoRoom(d)) || (d == c && OfPage(base, c, 1 + Refill(c), BlocksPerPage(c), b)))
  }

  lemma InPageBlocks(base: nat, c: nat, from: nat, b: nat)
    requires from <= BlocksPerPage(c)
    ensures b in PageBlocks(base, c)[from..] <==> OfPage(base, c, from, BlocksPerPage(c), b)
  {
    hide BlockSize, BlocksPerPage;
    var blocks := PageBlocks(base, c);
    if OfPage(base, c, from, BlocksPerPage(c), b) {
      var i: nat :| from <= i < BlocksPerPage(c) && b == SpaceSteps.Nth(base, c, i);
      assert blocks[from..][i - from] == b;
    }
    if b in blocks[from..] {
      var j :| 0 <= j < |blocks[from..]| && blocks[from..][j] == b;
      assert b == SpaceSteps.Nth(base, c, from + j);
    }
  }

  /** The machine's books after a page is carved, block by block. */
  lemma PageBoxes(s: State, t: Tid, c: nat, base: nat)
    requires c < NUM_CLASSES && BlocksPerPage(c) > 1 && AllocMag(s, t, c) == []
             && 1 + Refill(c) <= |PageBlocks(base, c)|
    ensures var s', blocks := CarvePage(Goto(s, t, Idle), t, c, base), PageBlocks(base, c);
            && s'.carved == s.carved + (map b | b in blocks :: c)
            && s'.large == s.large && s'.pages == s.pages + PageRun(base, 1) && LiveBlocks(s') == LiveBlocks(s) + [base]
            && forall d :: At(s'.box, HadNoRoom(d)) == At(s.box, HadNoRoom(d)) + if d == c
                then blocks[1 + Refill(c)..] else []
  {
    hide BlockSize, BlocksPerPage, PageRun, PageBlocks, Refill, Overflow, BulkRoom;
    RoomIsRefill(c);
    PageStart(base, c);
    assert AllocMag(Goto(s, t, Idle), t, c) == [];
  }

  lemma PagePoints(s: State, t: Tid, c: nat, base: nat)
    requires BlocksPerPage(c) > 1
    ensures SamePoints(s, CarvePage(Goto(s, t, Idle), t, c, base), t)
  {
    hide BlockSize, BlocksPerPage, PageRun, PageBlocks, BulkRoom, Fresh;
    PageStart(base, c);
  }

  lemma PageBooks(s: State, t: Tid, c: nat, base: nat)
    requires c < NUM_CLASSES && BlocksPerPage(c) > 1 && AllocMag(s, t, c) == []
    ensures var s' := CarvePage(Goto(s, t, Idle), t, c, base);
            BulkBooks(s, s', c, base) && SamePoints(s, s', t)
  {
    hide BlockSize, BlocksPerPage, PageRun, OfPage, PageBlocks, Refill, CarvePage, SamePoints, LiveBlocks, At;
    var blocks := PageBlocks(base, c);
    RoomIsRefill(c);
    PageStart(base, c);
    PageBoxes(s, t, c, base);
    PagePoints(s, t, c, base);
    var rest := blocks[1 + Refill(c)..];
    forall b: nat
      ensures b in blocks <==> OfPage(base, c, 0, BlocksPerPage(c), b)
      ensures b in rest <==> OfPage(base, c, 1 + Refill(c), BlocksPerPage(c), b)
    {
      assert blocks[0..] == blocks;
      InPageBlocks(base, c, 0, b);
      InPageBlocks(base, c, 1 + Refill(c), b);
    }
  }

  lemma RoomIsRefill(c: nat)
    requires c < NUM_CLASSES && BlocksPerPage(c) > 1
    ensures BulkRoom(0, BlocksPerPage(c) - 1) == Refill(c) && 1 + Refill(c) <= BlocksPerPage(c)
  {
    ClassGeometry(c);
    hide BlocksPerPage;
  }

  lemma PageStart(base: nat, c: nat)
    requires BlocksPerPage(c) > 1
    ensures |PageBlocks(base, c)| == BlocksPerPage(c) && PageBlocks(base, c)[..1] == [base]
  {
    hide BlockSize, BlocksPerPage;
  }

  /** Nothing in the books concerns the page. */
  ghost predicate PageIsNew(w: World, c: nat, base: nat) {
    forall x :: OfPage(base, c, 0, BlocksPerPage(c), x) ==>
      x !in w.s.carved && x !in w.blocks && x !in w.s.large && x !in LiveBlocks(w.s) && x !in At(w.s.box, HadNoRoom(c))
  }

  /** One block after a page is carved for a request of `size`. */
  ghost predicate BulkStep(w: World, w': World, c: nat, base: nat, size: nat) {
    && BulkBooks(w.s, w'.s, c, base) && 1 + Refill(c) <= BlocksPerPage(c)
    && w'.blocks == SpaceSteps.Carve(w.blocks[base := Space.Small(c, size)], base, c, Refill(c))
  }

  lemma OfPageAt(base: nat, c: nat, from: nat, to: nat, i: nat)
    ensures OfPage(base, c, from, to, SpaceSteps.Nth(base, c, i)) <==> from <= i < to
  {
    hide SpaceSteps.Nth;
    var x := SpaceSteps.Nth(base, c, i);
    if OfPage(base, c, from, to, x) {
      var j: nat :| from <= j < to && x == SpaceSteps.Nth(base, c, j);
      if i < j {
        NthDistinct(base, c, i, j);
      } else if j < i {
        NthDistinct(base, c, j, i);
      }
    }
  }

  /** A block of the page: in use, idle or passed over, by its position. */
  lemma BulkNew(w: World, w': World, c: nat, base: nat, size: nat, i: nat)
    requires BooksOk(w) && BulkStep(w, w', c, base, size) && PageIsNew(w, c, base) && i < BlocksPerPage(c)
    ensures var x := SpaceSteps.Nth(base, c, i);
            && x in w'.s.carved && x !in w'.s.large && (x in w'.blocks <==> !PassedOver(w'.s, x))
            && (x in w'.blocks ==> BookOk(w', x))
  {
    hide SpaceSteps.Nth, OfPage, BlocksPerPage, Refill, SpaceSteps.Carve, LiveBlocks, At, BooksOk;
    var x := SpaceSteps.Nth(base, c, i);
    OfPageAt(base, c, 0, BlocksPerPage(c), i);
    OfPageAt(base, c, 1, 1 + Refill(c), i);
    OfPageAt(base, c, 1 + Refill(c), BlocksPerPage(c), i);
    CarvedKeys(w.blocks[base := Space.Small(c, size)], base, c, Refill(c), x);
    assert i == 0 <==> x == base by { FirstIsBase(base, c, i); }
  }

  lemma FirstIsBase(base: nat, c: nat, i: nat)
    ensures i == 0 <==> SpaceSteps.Nth(base, c, i) == base
  {
    if i > 0 {
      NthDistinct(base, c, 0, i);
    }
  }

  lemma BulkOld(w: World, w': World, c: nat, base: nat, size: nat, x: nat)
    requires BooksOk(w) && BulkStep(w, w', c, base, size) && !OfPage(base, c, 0, BlocksPerPage(c), x)
    ensures x in w'.blocks <==> (x in w'.s.carved && !PassedOver(w'.s, x)) || x in w'.s.large
    ensures x in w'.s.carved && x in w'.blocks ==> BookOk(w', x)
    ensures x in w'.s.large && x in w'.blocks ==> w'.blocks[x].Large? && w'.blocks[x].pages == w'.s.large[x]
  {
    hide OfPage, BlocksPerPage, Refill, SpaceSteps.Carve, LiveBlocks, At;
    CarvedKeys(w.blocks[base := Space.Small(c, size)], base, c, Refill(c), x);
    NotOfPart(base, c, x);
    assert x != base;
    assert PassedOver(w'.s, x) <==> PassedOver(w.s, x);
    if x in w.s.carved && x in w.blocks {
      assert BookOk(w, x);
    }
  }

  lemma NotOfPart(base: nat, c: nat, x: nat)
    requires !OfPage(base, c, 0, BlocksPerPage(c), x) && 1 + Refill(c) <= BlocksPerPage(c)
    ensures !OfPage(base, c, 1, 1 + Refill(c), x) && !OfPage(base, c, 1 + Refill(c), BlocksPerPage(c), x) && x != base
  {
    hide SpaceSteps.Nth, BlocksPerPage, Refill;
    FirstIsBase(base, c, 0);
    OfPageAt(base, c, 0, BlocksPerPage(c), 0);
  }

  lemma BulkKeepsBooks(w: World, w': World, c: nat, base: nat, size: nat)
    requires BooksOk(w) && BulkStep(w, w', c, base, size) && PageIsNew(w, c, base)
    ensures BooksOk(w')
  {
    hide BulkStep, PageIsNew, SpaceSteps.Nth, BlocksPerPage, PassedOver, BookOk, LiveBlocks;
    forall x
      ensures x in w'.blocks <==> (x in w'.s.carved && !PassedOver(w'.s, x)) || x in w'.s.large
      ensures x in w'.s.carved && x in w'.blocks ==> BookOk(w', x)
      ensures x in w'.s.large && x in w'.blocks ==> w'.blocks[x].Large? && w'.blocks[x].pages == w'.s.large[x]
    {
      if OfPage(base, c, 0, BlocksPerPage(c), x) {
        var i: nat :| 0 <= i < BlocksPerPage(c) && x == SpaceSteps.Nth(base, c, i);
        BulkNew(w, w', c, base, size, i);
      } else {
        BulkOld(w, w', c, base, size, x);
      }
    }
  }

  lemma FreshPageIsNew(w: World, g: Aux, t: Tid, c: nat, base: nat)
    requires Inv(w.s, g) && Space.SpaceOk(SpaceOf(w)) && BooksOk(w) && SpaceSteps.FreshPages(w.mem, base, 1)
    requires FreshRun(w.s, base, 1) && c < NUM_CLASSES && BlocksPerPage(c) > 1 && MemoryOk(w.s)
    ensures PageIsNew(w, c, base)
  {
    hide Inv, Space.SpaceOk, BooksOk, SpaceSteps.FreshPages, FreshRun, MemoryOk, BlocksPerPage, BlockSize,
        SpaceSteps.Nth;
    CarvePageMemory(w.s, t, c, base);
    forall x | OfPage(base, c, 0, BlocksPerPage(c), x)
      ensures x !in w.s.carved && x !in w.blocks && x !in w.s.large && x !in LiveBlocks(w.s)
              && x !in At(w.s.box, HadNoRoom(c))
    {
      var i: nat :| 0 <= i < BlocksPerPage(c) && x == SpaceSteps.Nth(base, c, i);
      InPageBlocks(base, c, 0, x);
      assert PageBlocks(base, c)[0..] == PageBlocks(base, c);
      NewIsNotLive(w.s, g, x);
      NotPassedOver(w.s, g, x, c);
      NthInPage(base, c, i);
      NothingInFresh(w, base, 1, x);
    }
  }

  lemma NthInPage(base: nat, c: nat, i: nat)
    requires c < NUM_CLASSES && i < BlocksPerPage(c)
    ensures base <= SpaceSteps.Nth(base, c, i) < base + PAGE_SIZE
  {
    ClassGeometry(c);
    hide BlockSize, BlocksPerPage;
    var n, k := BlocksPerPage(c), BlockSize(c);
    Distribute(n, i, k);
    MulAtLeast(n - i, k);
    SpaceSteps.Regroup(i, 1, k);
  }

  lemma BulkMoveKeeps(w: World, g: Aux, t: Tid, c: nat, base: nat)
    requires WorldInv(w, g) && PcOf(w.s, t) == Miss(c) && BlocksPerPage(c) > 1 && SpaceSteps.FreshPages(w.mem, base, 1)
    ensures MoveAllowed(w, t, BulkPage(base)) && GoEnabled(w.s, t, BulkPage(base))
    ensures var w' := Moved(w, t, BulkPage(base));
            && WorldInv(w', AuxGo(w.s, g, t, BulkPage(base))) && Space.KeepsLive(SpaceOf(w), SpaceOf(w'), 0)
  {
    hide Inv, GoStep, CarvePage, AuxGo, Space.SpaceOk, Space.KeepsLive, BooksOk, SpaceSteps.NewSmall, CApi.PageCarved;
    hide SpaceSteps.FreshPages, BlocksPerPage, PageRun, FreshRun, PagesOk, PageIsNew, BulkStep, MemoryOk, SamePoints;
    var size, w' := Want(w, t), Moved(w, t, BulkPage(base));
    MoveIsEnabled(w, t, BulkPage(base));
    MissIs(w.s, t, c, base);
    GoKeepsInv(w.s, g, t, BulkPage(base));
    MissFacts(w.s, g, t);
    assert SpaceSteps.SmallRequest(c, size);
    MissIsAfter(w, t, c, base, size);
    CApi.PageCarvedKeeps(SpaceOf(w), base, c, size);
    FreshBase(w, base, 1);
    FreshPageIsNew(w, g, t, c, base);
    PageBooks(w.s, t, c, base);
    BulkStepNow(w, w', c, base, size);
    BulkKeepsBooks(w, w', c, base, size);
    WantsFrame(w, w'.s, t);
    BulkKeepsPages(w, w', c, base, size);
  }

  lemma BulkStepNow(w: World, w': World, c: nat, base: nat, size: nat)
    requires SpaceOf(w') == CApi.PageCarved(SpaceOf(w), base, c, size) && BulkBooks(w.s, w'.s, c, base)
    requires c < NUM_CLASSES && BlocksPerPage(c) > 1
    ensures BulkStep(w, w', c, base, size)
  {
    hide BulkBooks, BlocksPerPage, Refill, MapRange;
    RoomIsRefill(c);
    NewSmallIs(w, base, 1, c, size);
  }

  lemma BulkKeepsPages(w: World, w': World, c: nat, base: nat, size: nat)
    requires PagesOk(w) && SpaceOf(w') == CApi.PageCarved(SpaceOf(w), base, c, size) && base % PAGE_SIZE == 0
    requires w'.s.pages == w.s.pages + PageRun(base, 1)
    ensures PagesOk(w')
  {
    hide PagesOk, PageRun, SpaceSteps.Carve, Refill;
    NewSmallIs(w, base, 1, c, size);
    PagesMapped(w, w', base, 1);
  }

  // ------------------------------------------------------------------
  // The other acts
  // ------------------------------------------------------------------

  lemma MallocKeeps(w: World, g: Aux, t: Tid, size: nat)
    requires WorldInv(w, g) && Allowed(w, CallMalloc(t, size))
    ensures WorldInv(Do(w, CallMalloc(t, size)), g)
  {
    hide Inv, Space.SpaceOk, CacheSize, ClassFor, SizeToClass, Goto;
    var c, w' := ClassFor(size), Do(w, CallMalloc(t, size));
    CApi.ClassForFits(size);
    StableClass(size);
    MallocKeepsInv(w.s, g, t, c);
    GotoFacts(w.s, t);
    BooksFrame(w, Goto(w.s, t, TryLocal(c)));
    forall u: Tid | Allocating(PcOf(w'.s, u))
      ensures SpaceSteps.SmallRequest(PcOf(w'.s, u).c, Want(w', u))
    {
      assert u != t ==> Allocating(PcOf(w.s, u));
    }
  }

  lemma StableClass(size: nat)
    requires 1 <= size <= MAX_CACHE_SIZE
    ensures ClassFor(CacheSize(size)) == ClassFor(size)
  {
    hide CacheSize, SizeToClass;
    ClassIsStable(size);
  }

  lemma IndexFinds(x: seq<nat>, b: nat)
    requires b in x
    ensures IndexOf(x, b) < |x| && x[IndexOf(x, b)] == b
  {
    if x[0] != b {
      assert b in x[1..];
      IndexFinds(x[1..], b);
    }
  }

  /** A small block in use is live in the machine, for the class recorded. */
  lemma SmallIsLive(w: World, b: nat)
    requires BooksOk(w) && b in w.blocks && w.blocks[b].Small?
    ensures b in LiveBlocks(w.s) && b in w.s.carved && w.s.carved[b] == w.blocks[b].index && b !in w.s.large
  {
    assert b in w.s.carved ==> BookOk(w, b);
  }

  lemma LargeIsMapped(w: World, b: nat)
    requires BooksOk(w) && b in w.blocks && w.blocks[b].Large?
    ensures b in w.s.large && b !in w.s.carved && w.blocks[b].pages == w.s.large[b]
  {
    assert b in w.s.carved ==> BookOk(w, b);
    assert PassedOver(w.s, b) ==> b in w.s.carved;
  }

  // Freeing a small block

  lemma InHandBooks(s: State, g: Aux, t: Tid, i: nat, c: nat)
    requires Inv(s, g) && i < |LiveBlocks(s)|
    ensures var s', b := InHandStep(s, t, i, c), LiveBlocks(s)[i];
            && s'.carved == s.carved && s'.large == s.large && s'.pages == s.pages
            && (forall x :: x in LiveBlocks(s') <==> x in LiveBlocks(s) && x != b)
            && (forall d :: At(s'.box, HadNoRoom(d)) == At(s.box, HadNoRoom(d)))
    ensures SamePoints(s, InHandStep(s, t, i, c), t)
  {
    hide StacksOk, NodesOk, ThreadsOk, SizesOk, MemoryOk;
    assert Distinct(At(s.box, Live));
    RemoveAt(LiveBlocks(s), i);
  }

  lemma FreeKeepsBooks(w: World, w': World, b: nat, c: nat)
    requires BooksOk(w) && b in w.s.carved && b in w.blocks && w.s.carved[b] == c && b !in w.s.large
    requires w'.s.carved == w.s.carved && w'.s.large == w.s.large && w'.blocks == w.blocks[b := Space.Idle(c)]
    requires forall x :: x in LiveBlocks(w'.s) <==> x in LiveBlocks(w.s) && x != b
    requires forall d :: At(w'.s.box, HadNoRoom(d)) == At(w.s.box, HadNoRoom(d))
    ensures BooksOk(w')
  {
    hide At, LiveBlocks;
    forall x
      ensures PassedOver(w'.s, x) <==> PassedOver(w.s, x)
    {
    }
    hide PassedOver;
    forall x | x in w'.s.carved && x in w'.blocks
      ensures BookOk(w', x)
    {
      assert BookOk(w, x);
    }
  }

  /** The header read by a concurrent `free` gives the class of the block. */
  lemma FreeReadsClass(w: World, p: nat, a: nat)
    requires Space.SpaceOk(SpaceOf(w)) && BooksOk(w) && Space.PointsTo(SpaceOf(w), p, a) && w.blocks[a].Small?
    ensures p == a + 16 && Word32(w.mem, a) != Space.LARGE_MAGIC && LooksSmall(w.mem, a)
    ensures ClassFor(CacheSize(Word64(w.mem, a))) == w.blocks[a].index
    ensures a in w.s.carved && w.blocks[a].index == w.s.carved[a] && w.s.carved[a] < NUM_CLASSES
  {
    hide Space.SpaceOk, BooksOk, Word32, Word64, CacheSize, SizeToClass;
    SpaceSteps.SmallDispatch(SpaceOf(w), a, p);
    SmallIsLive(w, a);
  }

  lemma FreeSmallKeeps(w: World, g: Aux, t: Tid, p: nat, a: nat)
    requires WorldInv(w, g) && Allowed(w, CallFree(t, p)) && Space.PointsTo(SpaceOf(w), p, a) && w.blocks[a].Small?
    ensures var w', i := Do(w, CallFree(t, p)), IndexOf(LiveBlocks(w.s), a);
            && Enabled(w.s, Free(t, i)) && w'.s == Apply(w.s, Free(t, i))
            && WorldInv(w', AuxStep(w.s, g, Free(t, i))) && Space.KeepsLive(SpaceOf(w), SpaceOf(w'), a)
  {
    hide Inv, Space.SpaceOk, Space.KeepsLive, BooksOk, Word32, Word64, CacheSize, ClassFor, AuxStep, LooksSmall;
    hide InHandStep, LiveBlocks, SamePoints, IndexOf;
    var w', i := Do(w, CallFree(t, p)), IndexOf(LiveBlocks(w.s), a);
    FreeReadsClass(w, p, a);
    SmallIsLive(w, a);
    IndexFinds(LiveBlocks(w.s), a);
    var c := w.blocks[a].index;
    assert w'.s == InHandStep(w.s, t, i, c);
    assert Enabled(w.s, Free(t, i)) && Apply(w.s, Free(t, i)) == w'.s;
    StepKeepsInv(w.s, g, Free(t, i));
    SpaceSteps.FreeSmallKeeps(SpaceOf(w), a);
    InHandBooks(w.s, g, t, i, c);
    FreeKeepsBooks(w, w', a, c);
    WantsFrame(w, w'.s, t);
  }

  // Freeing a large mapping

  lemma WantsSame(w: World, w': World)
    requires WantsOk(w) && w'.s.pc == w.s.pc && w'.want == w.want
    ensures WantsOk(w')
  {
    hide SpaceSteps.SmallRequest, Allocating;
    assert forall t: Tid :: PcOf(w'.s, t) == PcOf(w.s, t);
  }

  lemma SameBoxes(s: State, s': State)
    requires s'.box == s.box
    ensures LiveBlocks(s') == LiveBlocks(s)
  {
  }

  lemma UnmapKeepsBooks(w: World, w': World, a: nat)
    requires BooksOk(w) && a in w.s.large && a !in w.s.carved
    requires w'.s == w.s.(pages := w'.s.pages, large := w.s.large - {a}) && w'.blocks == w.blocks - {a}
    ensures BooksOk(w')
  {
    hide At, LiveBlocks;
    assert LiveBlocks(w'.s) == LiveBlocks(w.s) && w'.s.box == w.s.box by { SameBoxes(w.s, w'.s); }
    forall x
      ensures PassedOver(w'.s, x) <==> PassedOver(w.s, x)
    {
    }
    hide PassedOver;
    forall x | x in w'.s.carved && x in w'.blocks
      ensures BookOk(w', x)
    {
      assert BookOk(w, x);
    }
  }

  lemma UnmapKeepsPages(w: World, w': World, a: nat, count: nat, n: nat)
    requires PagesOk(w) && a % PAGE_SIZE == 0 && n <= count
    requires w'.s.pages == w.s.pages - PageRun(a, count) && w'.mem == UnmapRange(w.mem, a, n * PAGE_SIZE)
    ensures PagesOk(w')
  {
    hide UnmapRange;
    forall p | p in w'.s.pages
      ensures ByteMemory.Mapped(w'.mem, p * PAGE_SIZE, PAGE_SIZE)
    {
      assert ByteMemory.Mapped(w.mem, p * PAGE_SIZE, PAGE_SIZE);
      assert !InRun(p, a, count);
      OutsideRun(a, count, p);
    }
  }

  lemma OutsideRun(a: nat, count: nat, p: nat)
    requires a % PAGE_SIZE == 0 && !InRun(p, a, count)
    ensures p * PAGE_SIZE + PAGE_SIZE <= a || a + count * PAGE_SIZE <= p * PAGE_SIZE
  {
  }

  /** The headers read by `free` give base and page count of a large mapping. */
  lemma FreeReadsMapping(w: World, p: nat, a: nat)
    requires Space.SpaceOk(SpaceOf(w)) && BooksOk(w) && Space.PointsTo(SpaceOf(w), p, a) && w.blocks[a].Large?
    ensures Word32(w.mem, Space.Minus(p, 16)) == Space.LARGE_MAGIC && Word64(w.mem, Space.Minus(p, 8)) == a
    ensures Word32(w.mem, a) == Space.MAGIC && Word32(w.mem, a + 4) == w.blocks[a].pages % WORD32
    ensures a in w.s.large && w.s.large[a] == w.blocks[a].pages && a % PAGE_SIZE == 0 && a !in w.s.carved
  {
    hide Space.SpaceOk, BooksOk, Word32, Word64, LargePages, ValidLayout, Space.User;
    SpaceSteps.LargeDispatch(SpaceOf(w), a, p);
    LargeIsMapped(w, a);
    Space.BlockAt(SpaceOf(w), a);
  }

  lemma FreeLargeKeeps(w: World, g: Aux, t: Tid, p: nat, a: nat)
    requires WorldInv(w, g) && Allowed(w, CallFree(t, p)) && Space.PointsTo(SpaceOf(w), p, a) && w.blocks[a].Large?
    ensures var w' := Do(w, CallFree(t, p));
            && Enabled(w.s, UnmapLarge(a)) && w'.s == Apply(w.s, UnmapLarge(a))
            && WorldInv(w', AuxStep(w.s, g, UnmapLarge(a))) && Space.KeepsLive(SpaceOf(w), SpaceOf(w'), a)
  {
    hide Inv, Space.SpaceOk, Space.KeepsLive, BooksOk, PagesOk, Word32, Word64, AuxStep, UnmapRange, PageRun;
    var w', count := Do(w, CallFree(t, p)), w.blocks[a].pages;
    var n := count % WORD32;
    FreeReadsMapping(w, p, a);
    CApi.UnmapNothing(w.mem, a);
    assert w'.mem == UnmapRange(w.mem, a, n * PAGE_SIZE);
    StepKeepsInv(w.s, g, UnmapLarge(a));
    SpaceSteps.FreeLargeKeeps(SpaceOf(w), a, n * PAGE_SIZE);
    UnmapKeepsBooks(w, w', a);
    UnmapKeepsPages(w, w', a, count, n);
    WantsSame(w, w');
  }

  // Mapping a large block

  lemma FreshIsNotCarved(w: World, g: Aux, base: nat, n: nat)
    requires Inv(w.s, g) && FreshRun(w.s, base, n) && n >= 1
    ensures base !in w.s.carved
  {
    hide BlocksIn, StacksOk, NodesOk, ThreadsOk, SizesOk, PageRun, BlockSize, MagazineMachine.Mapped;
    if base in w.s.carved {
      BlockSizePositive(w.s.carved[base]);
      MappedApartFromFresh(w.s.pages, base, BlockSize(w.s.carved[base]), base, n);
    }
  }

  lemma MapKeepsBooks(w: World, w': World, base: nat, b: Space.Block)
    requires BooksOk(w) && base !in w.s.carved && b.Large?
    requires w'.s == w.s.(pages := w'.s.pages, large := w.s.large[base := b.pages]) && w'.blocks == w.blocks[base := b]
    ensures BooksOk(w')
  {
    hide At, LiveBlocks;
    assert LiveBlocks(w'.s) == LiveBlocks(w.s) && w'.s.box == w.s.box by { SameBoxes(w.s, w'.s); }
    forall x
      ensures PassedOver(w'.s, x) <==> PassedOver(w.s, x)
    {
    }
    hide PassedOver;
    forall x | x in w'.s.carved && x in w'.blocks
      ensures BookOk(w', x)
    {
      assert BookOk(w, x);
    }
  }

  lemma NewLargeIs(w: World, base: nat, size: nat, align: nat)
    ensures var x := SpaceSteps.NewLarge(SpaceOf(w), base, size, align);
            && x.blocks == w.blocks[base := Space.Large(LargePages(size, align), align, size)]
            && (forall y :: y in w.mem ==> y in x.mem)
            && ByteMemory.Mapped(x.mem, base, LargePages(size, align) * PAGE_SIZE)
  {
    hide MapRange, LargePages, SpaceSteps.WriteLargeHeader, SpaceSteps.WritePageHeader, Space.User;
  }

  lemma MapBigKeeps(w: World, g: Aux, size: nat, align: nat, base: nat)
    requires WorldInv(w, g) && Allowed(w, MapBig(size, align, base))
    ensures var w', n := Do(w, MapBig(size, align, base)), LargePages(size, align);
            && Enabled(w.s, MapLarge(base, n)) && w'.s == Apply(w.s, MapLarge(base, n))
            && WorldInv(w', AuxStep(w.s, g, MapLarge(base, n))) && Space.KeepsLive(SpaceOf(w), SpaceOf(w'), 0)
  {
    hide Inv, Space.SpaceOk, Space.KeepsLive, BooksOk, PagesOk, AuxStep, PageRun, SpaceSteps.NewLarge, LargePages;
    hide SpaceSteps.FreshPages, FreshRun, ValidLayout, CApi.Cacheable;
    var w', n := Do(w, MapBig(size, align, base)), LargePages(size, align);
    FreshInBooks(w, base, n);
    FreshBase(w, base, n);
    StepKeepsInv(w.s, g, MapLarge(base, n));
    SpaceSteps.NewLargeKeeps(SpaceOf(w), base, size, align);
    NewLargeIs(w, base, size, align);
    FreshIsNotCarved(w, g, base, n);
    MapKeepsBooks(w, w', base, Space.Large(n, align, size));
    WantsSame(w, w');
    PagesMapped(w, w', base, n);
  }

  // A store of the program

  lemma WriteKeeps(w: World, g: Aux, p: nat, at: nat, v: seq<byte>)
    requires WorldInv(w, g) && Allowed(w, Write(p, at, v))
    ensures var w' := Do(w, Write(p, at, v));
            WorldInv(w', g) && Space.KeepsLive(SpaceOf(w), SpaceOf(w'), Space.Owner(SpaceOf(w), p))
  {
    hide Inv, Space.SpaceOk, Space.KeepsLive, Store, Space.User;
    SpaceSteps.UserStoreKeeps(SpaceOf(w), Space.Owner(SpaceOf(w), p), p + at, v);
    var w' := Do(w, Write(p, at, v));
    BooksFrame(w, w.s);
    assert BooksOk(w') by { BooksSame(w, w'); }
    assert w'.mem.Keys == w.mem.Keys;
  }

  lemma BooksSame(w: World, w': World)
    requires BooksOk(w) && w'.s == w.s && w'.blocks == w.blocks
    ensures BooksOk(w')
  {
    forall x | x in w'.s.carved && x in w'.blocks
      ensures BookOk(w', x)
    {
      assert BookOk(w, x);
    }
  }

  // ------------------------------------------------------------------
  // Every act, every run
  // ------------------------------------------------------------------

  /** The step of the magazine machine an act is, if it is one. */
  ghost function StepOf(w: World, a: Act): Option<Step>
    requires Allowed(w, a)
  {
    match a
    case CallMalloc(t, size) => Some(Malloc(t, ClassFor(size)))
    case Move(t, choice) => Some(Go(t, choice))
    case CallFree(t, p) =>
      var b := Space.Owner(SpaceOf(w), p);
      if w.blocks[b].Small? then Some(Free(t, IndexOf(LiveBlocks(w.s), b))) else Some(UnmapLarge(b))
    case MapBig(size, align, base) => Some(MapLarge(base, LargePages(size, align)))
    case Write(_, _, _) => None
  }

  /** The block whose bytes an act may change: the one freed or written. */
  ghost function Touched(w: World, a: Act): nat
    requires Allowed(w, a)
  {
    match a
    case CallFree(t, p) => Space.Owner(SpaceOf(w), p)
    case Write(p, _, _) => Space.Owner(SpaceOf(w), p)
    case _ => 0
  }

  /** A move of a thread. */
  lemma MoveKeeps(w: World, g: Aux, t: Tid, choice: Choice)
    requires WorldInv(w, g) && MoveAllowed(w, t, choice)
    ensures GoEnabled(w.s, t, choice) && Moved(w, t, choice).s == GoStep(w.s, t, choice)
    ensures var w' := Moved(w, t, choice);
            WorldInv(w', AuxGo(w.s, g, t, choice)) && Space.KeepsLive(SpaceOf(w), SpaceOf(w'), 0)
  {
    hide WorldInv, GoStep, AuxGo, Space.KeepsLive, BlocksPerPage, PagesForBlock, SpaceSteps.FreshPages;
    assert PagesOk(w) by { PagesHold(w, g); }
    MoveIsEnabled(w, t, choice);
    if HandedOut(w.s, t, choice) == None {
      QuietMoveKeeps(w, g, t, choice);
      SameIsKept(w, Moved(w, t, choice));
    } else if PcOf(w.s, t).Miss? {
      if choice.BulkPage? {
        BulkMoveKeeps(w, g, t, PcOf(w.s, t).c, choice.base);
      } else {
        SingleMoveKeeps(w, g, t, PcOf(w.s, t).c, choice.base);
      }
    } else {
      TakeMoveKeeps(w, g, t, PcOf(w.s, t).c);
    }
  }

  lemma PagesHold(w: World, g: Aux)
    requires WorldInv(w, g)
    ensures PagesOk(w) && Space.SpaceOk(SpaceOf(w)) && BooksOk(w) && Inv(w.s, g) && WantsOk(w)
  {
    hide Inv, Space.SpaceOk, BooksOk, PagesOk, WantsOk;
  }

  lemma SameIsKept(w: World, w': World)
    requires SpaceOf(w') == SpaceOf(w)
    ensures Space.KeepsLive(SpaceOf(w), SpaceOf(w'), 0)
  {
    hide Space.Contents;
  }

  /** Every act keeps the invariant, is a step of the magazine machine or leaves
      it alone, and changes the bytes of no block in use but the one it frees or
      writes. */
  lemma ActKeeps(w: World, g: Aux, a: Act) returns (g': Aux)
    requires WorldInv(w, g) && Allowed(w, a)
    ensures WorldInv(Do(w, a), g')
    ensures match StepOf(w, a)
            case Some(step) => Enabled(w.s, step) && Do(w, a).s == Apply(w.s, step)
            case None => Do(w, a).s == w.s
    ensures Space.KeepsLive(SpaceOf(w), SpaceOf(Do(w, a)), Touched(w, a))
  {
    hide WorldInv, Space.KeepsLive, GoStep, FreedSmall, FreedLarge, Moved, MoveAllowed, GoEnabled, AuxStep, AuxGo,
        BlocksPerPage;
    match a
    case CallMalloc(t, size) =>
      g' := g;
      MallocKeeps(w, g, t, size);
      MallocStep(w, t, size);
      SameIsKept(w, Do(w, a));
    case Move(t, choice) =>
      g' := AuxGo(w.s, g, t, choice);
      MoveKeeps(w, g, t, choice);
    case CallFree(t, p) =>
      var b := Space.Owner(SpaceOf(w), p);
      if w.blocks[b].Small? {
        g' := AuxStep(w.s, g, Free(t, IndexOf(LiveBlocks(w.s), b)));
        FreeSmallKeeps(w, g, t, p, b);
      } else {
        g' := AuxStep(w.s, g, UnmapLarge(b));
        FreeLargeKeeps(w, g, t, p, b);
      }
    case MapBig(size, align, base) =>
      g' := AuxStep(w.s, g, MapLarge(base, LargePages(size, align)));
      MapBigKeeps(w, g, size, align, base);
    case Write(p, at, v) =>
      g' := g;
      WriteKeeps(w, g, p, at, v);
  }

  lemma MallocStep(w: World, t: Tid, size: nat)
    requires Allowed(w, CallMalloc(t, size))
    ensures var step := Malloc(t, ClassFor(size));
            Enabled(w.s, step) && Do(w, CallMalloc(t, size)).s == Apply(w.s, step)
  {
    hide CacheSize, SizeToClass, ClassFor;
    CApi.ClassForFits(size);
    StableClass(size);
  }

  lemma StartInv()
    ensures WorldInv(START, AUX0)
  {
    InitialInv();
    hide Inv;
  }

  /** A run: worlds and the acts between them. */
  ghost predicate IsWorldRun(worlds: seq<World>, acts: seq<Act>) {
    && |worlds| == |acts| + 1
    && worlds[0] == START
    && (forall i :: 0 <= i < |acts| ==> Allowed(worlds[i], acts[i]) && NextWorld(worlds, i) == Do(worlds[i], acts[i]))
  }

  ghost function NextWorld(worlds: seq<World>, i: nat): World
    requires i + 1 < |worlds|
  {
    worlds[i + 1]
  }

  lemma {:induction false} RunIsGood(worlds: seq<World>, acts: seq<Act>, i: nat) returns (g: Aux)
    requires IsWorldRun(worlds, acts) && i <= |acts|
    ensures WorldInv(worlds[i], g)
    decreases i
  {
    hide WorldInv, Allowed, Do;
    if i == 0 {
      g := AUX0;
      StartInv();
    } else {
      var g0 := RunIsGood(worlds, acts, i - 1);
      assert NextWorld(worlds, i - 1) == Do(worlds[i - 1], acts[i - 1]);
      g := ActKeeps(worlds[i - 1], g0, acts[i - 1]);
    }
  }

  /** Every run over bytes is a run of the magazine machine, with the program's
      stores left out: what holds in that machine's runs holds here. */
  lemma {:induction false} RunProjects(worlds: seq<World>, acts: seq<Act>, i: nat)
      returns (states: seq<State>, steps: seq<Step>)
    requires IsWorldRun(worlds, acts) && i <= |acts|
    ensures IsRun(states, steps) && states[|steps|] == worlds[i].s
    decreases i
  {
    hide WorldInv, Allowed, Do, Enabled, Apply, StepOf;
    if i == 0 {
      states, steps := [INITIAL], [];
    } else {
      states, steps := RunProjects(worlds, acts, i - 1);
      var g := RunIsGood(worlds, acts, i - 1);
      var w, a := worlds[i - 1], acts[i - 1];
      assert NextWorld(worlds, i - 1) == Do(w, a);
      var g' := ActKeeps(w, g, a);
      if StepOf(w, a).Some? {
        ExtendRun(states, steps, StepOf(w, a).value, worlds[i].s);
        states, steps := states + [worlds[i].s], steps + [StepOf(w, a).value];
      }
    }
  }

  /** In every interleaving of any number of threads the memory is sound: live
      ranges and their headers are disjoint, and the header before each live
      pointer says what it is.  Between any two moments the bytes of a block in
      use change only by the act that frees or writes that block. */
  lemma MemoryIsSound(worlds: seq<World>, acts: seq<Act>, i: nat)
    requires IsWorldRun(worlds, acts) && i <= |acts|
    ensures Space.SpaceOk(SpaceOf(worlds[i]))
    ensures i < |acts| ==> Allowed(worlds[i], acts[i])
                           && Space.KeepsLive(SpaceOf(worlds[i]), SpaceOf(NextWorld(worlds, i)),
                               Touched(worlds[i], acts[i]))
  {
    hide WorldInv, Allowed, Do, Space.SpaceOk, Space.KeepsLive, Touched;
    var g := RunIsGood(worlds, acts, i);
    PagesHold(worlds[i], g);
    if i < |acts| {
      var g' := ActKeeps(worlds[i], g, acts[i]);
    }
  }

  /** Whenever a thread frees a pointer, the bytes before it name the path that
      made it: a small block's size gives the class it was carved for, a large
      mapping's headers its base and page count. */
  lemma FreeReadsTheTruth(worlds: seq<World>, acts: seq<Act>, i: nat, p: nat, a: nat)
    requires IsWorldRun(worlds, acts) && i <= |acts| && Space.PointsTo(SpaceOf(worlds[i]), p, a)
    ensures var w := worlds[i];
            if w.blocks[a].Small? then
              && p == a + 16 && Word32(w.mem, a) != Space.LARGE_MAGIC && LooksSmall(w.mem, a) && a in w.s.carved
              && ClassFor(CacheSize(Word64(w.mem, a))) == w.s.carved[a]
            else
              && p >= 16 && Word32(w.mem, p - 16) == Space.LARGE_MAGIC && Word64(w.mem, p - 8) == a
              && Word32(w.mem, a) == Space.MAGIC && a in w.s.large && Word32(w.mem, a + 4) == w.s.large[a] % WORD32
  {
    hide WorldInv, Allowed, Do, Space.SpaceOk, BooksOk, Word32, Word64, CacheSize, ClassFor, Space.User, LooksSmall;
    var g := RunIsGood(worlds, acts, i);
    PagesHold(worlds[i], g);
    if worlds[i].blocks[a].Small? {
      FreeReadsClass(worlds[i], p, a);
    } else {
      FreeReadsMapping(worlds[i], p, a);
      CApi.UserMapped(SpaceOf(worlds[i]), p, a);
    }
  }

  /** What a release reports of the block `b` at `a`. */
  function Report(a: nat, b: Space.Block): CApi.Freed {
    match b
    case Small(c, _) => CApi.ToClass(a, c)
    case Large(pages, _, _) => if pages % WORD32 > 0 then CApi.Unmapped(a, pages % WORD32) else CApi.Kept(a)
    case Idle(_) => CApi.Nothing
  }

  /** Whenever a thread frees a pointer, its block is given back: a small one is idle
      and in the thread's hand, on its way into the magazine of its class; of a large
      one the pages its header counts are mapped no more. */
  lemma FreeGivesBack(worlds: seq<World>, acts: seq<Act>, i: nat, t: Tid, p: nat, a: nat)
    requires IsWorldRun(worlds, acts) && i < |acts| && acts[i] == CallFree(t, p)
    requires Space.PointsTo(SpaceOf(worlds[i]), p, a)
    ensures var b, w' := worlds[i].blocks[a], NextWorld(worlds, i);
            && CApi.GivenBack(a, b, Report(a, b), SpaceOf(w'))
            && (b.Small? ==> PcOf(w'.s, t) == TryPut(b.index) && At(w'.s.box, InHand(t, b.index)) == [a])
            && (b.Large? ==> a !in w'.s.large && w'.s.pages == worlds[i].s.pages - PageRun(a, b.pages))
  {
    hide WorldInv, Allowed, Do, Space.SpaceOk, BooksOk, CApi.GivenBack, PageRun, AuxStep;
    var g := RunIsGood(worlds, acts, i);
    PagesHold(worlds[i], g);
    FreeActs(worlds, acts, i);
    if worlds[i].blocks[a].Small? {
      SmallGivenBack(worlds[i], g, t, p, a);
    } else {
      LargeGivenBack(worlds[i], g, t, p, a);
    }
  }

  lemma FreeActs(worlds: seq<World>, acts: seq<Act>, i: nat)
    requires IsWorldRun(worlds, acts) && i < |acts|
    ensures Allowed(worlds[i], acts[i]) && NextWorld(worlds, i) == Do(worlds[i], acts[i])
  {
    hide Allowed, Do;
  }

  lemma SmallGivenBack(w: World, g: Aux, t: Tid, p: nat, a: nat)
    requires WorldInv(w, g) && Allowed(w, CallFree(t, p)) && Space.PointsTo(SpaceOf(w), p, a) && w.blocks[a].Small?
    ensures var b, w' := w.blocks[a], Do(w, CallFree(t, p));
            && CApi.GivenBack(a, b, Report(a, b), SpaceOf(w'))
            && PcOf(w'.s, t) == TryPut(b.index) && At(w'.s.box, InHand(t, b.index)) == [a]
  {
    hide Inv, Space.SpaceOk, BooksOk, Word32, Word64, CacheSize, ClassFor, LooksSmall, IndexOf, LiveBlocks, InHandStep;
    FreeReadsClass(w, p, a);
    SmallIsLive(w, a);
    IndexFinds(LiveBlocks(w.s), a);
    HandWasEmpty(w.s, g, t, w.blocks[a].index);
    InHandFacts(w.s, t, IndexOf(LiveBlocks(w.s), a), w.blocks[a].index);
  }

  lemma HandWasEmpty(s: State, g: Aux, t: Tid, c: nat)
    requires Inv(s, g) && PcOf(s, t).Idle?
    ensures At(s.box, InHand(t, c)) == []
  {
    hide BlocksIn, StacksOk, NodesOk, SizesOk, MemoryOk;
    assert ThreadOk(s, g, t);
  }

  lemma InHandFacts(s: State, t: Tid, i: nat, c: nat)
    requires i < |LiveBlocks(s)| && At(s.box, InHand(t, c)) == []
    ensures var s' := InHandStep(s, t, i, c);
            PcOf(s', t) == TryPut(c) && At(s'.box, InHand(t, c)) == [LiveBlocks(s)[i]]
  {
  }

  lemma LargeGivenBack(w: World, g: Aux, t: Tid, p: nat, a: nat)
    requires WorldInv(w, g) && Allowed(w, CallFree(t, p)) && Space.PointsTo(SpaceOf(w), p, a) && w.blocks[a].Large?
    ensures var b, w' := w.blocks[a], Do(w, CallFree(t, p));
            && CApi.GivenBack(a, b, Report(a, b), SpaceOf(w'))
            && a !in w'.s.large && w'.s.pages == w.s.pages - PageRun(a, b.pages)
  {
    hide Inv, Space.SpaceOk, BooksOk, PagesOk, Word32, Word64, UnmapRange, PageRun, LooksSmall;
    FreeReadsMapping(w, p, a);
  }

  /** Whenever a step of a thread hands out a block, what it is handed is honest
      in the sense of the sequential allocator, and the memory afterwards is that
      allocator's after the same request: each concurrent allocation is one of
      its allocations. */
  lemma AllocationsAreSequential(worlds: seq<World>, acts: seq<Act>, i: nat, t: Tid, choice: Choice)
    requires IsWorldRun(worlds, acts) && i < |acts| && acts[i] == Move(t, choice)
    requires HandedOut(worlds[i].s, t, choice).Some?
    ensures var w, size, ans := worlds[i], Want(worlds[i], t), AnswersAt(worlds[i], t, choice);
            && CApi.Cacheable(size, 8) && ClassFor(size) == PcOf(w.s, t).c
            && CApi.Honest(SpaceOf(w), size, 8, ans) && !CApi.Refused(size, 8, ans)
            && SpaceOf(NextWorld(worlds, i)) == CApi.After(SpaceOf(w), size, 8, ans)
            && HandedOut(w.s, t, choice).value == CApi.Start(size, 8, ans)
  {
    hide WorldInv, Do, MoveAllowed, ClassFor, CApi.After, CApi.Honest, CApi.Refused, HandedOut, AnswersAt,
        CApi.Start;
    var w := worlds[i];
    assert NextWorld(worlds, i) == Do(w, acts[i]);
    var g := RunIsGood(worlds, acts, i);
    HandedIsHonest(w, g, t, choice);
    MovedIsAfter(w, t, choice);
  }

  lemma MovedIsAfter(w: World, t: Tid, choice: Choice)
    requires MoveAllowed(w, t, choice) && HandedOut(w.s, t, choice).Some?
    ensures SpaceOf(Do(w, Move(t, choice))) == CApi.After(SpaceOf(w), Want(w, t), 8, AnswersAt(w, t, choice))
  {
    hide MoveAllowed, CApi.After, HandedOut, AnswersAt, GoStep, GoEnabled;
  }

  lemma HandedIsHonest(w: World, g: Aux, t: Tid, choice: Choice)
    requires WorldInv(w, g) && MoveAllowed(w, t, choice) && HandedOut(w.s, t, choice).Some?
    ensures var size, ans := Want(w, t), AnswersAt(w, t, choice);
            && CApi.Cacheable(size, 8) && ClassFor(size) == PcOf(w.s, t).c
            && CApi.Honest(SpaceOf(w), size, 8, ans) && !CApi.Refused(size, 8, ans)
            && HandedOut(w.s, t, choice).value == CApi.Start(size, 8, ans)
  {
    hide Inv, Space.SpaceOk, BooksOk, PagesOk, ClassFor, SpaceSteps.SmallRequest, SpaceSteps.FreshPages,
        BlocksPerPage, PagesForBlock, GoEnabled;
    var c, size := PcOf(w.s, t).c, Want(w, t);
    assert SpaceSteps.SmallRequest(c, size);
    ClassOfRequest(c, size);
    if !PcOf(w.s, t).Miss? {
      TakenIsIdle(w, g, t, HandedOut(w.s, t, choice).value);
    }
  }
}
