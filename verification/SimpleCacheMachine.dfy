/** The simple-cache build as a transition system.

    Any number of threads allocate and free.  Every load, next-read and
    compare-and-swap of a global pop is a step, as is every move of the walk of a
    flush and the load, link write and compare-and-swap of its push; in between,
    other threads run.  The global lists have no version tags: all is well exactly
    as long as no pop succeeds with a stale successor.

    `Machine` is what the code has: the first words of the blocks, heads, counts
    and local variables.  `State` adds books on which list a block is in and who
    has it; the machine steps without them. */
module SimpleCacheMachine {
  import opened Common
  import opened BlockLayout
  import opened LinkedLists
  import opened SimpleCache

  type Tid = nat

  /** Where a thread stands, with its local variables. */
  datatype Pc =
    | Idle
    | Batch(c: nat, size: nat, moved: nat)
    | Read(c: nat, size: nat, moved: nat, cur: nat)
    | ToPop(c: nat, size: nat, moved: nat, cur: nat, next: nat)
    | Holding(c: nat, size: nat, moved: nat, b: nat)
    | Missing(c: nat, size: nat)
    | Walking(c: nat, n: nat, head: nat, tail: nat, walked: nat)
    | ToLoad(c: nat, head: nat, tail: nat)
    | ToLink(c: nat, head: nat, tail: nat, cur: nat)
    | ToSwap(c: nat, head: nat, tail: nat, cur: nat)
  {
    /** The thread is pushing a flushed batch. */
    predicate Pushing() { ToLoad? || ToLink? || ToSwap? }
    predicate EmptyHanded() { !Holding? && !Pushing() }

    /** The thread is inside a global pop, past its load. */
    predicate Popping() { Read? || ToPop? }
  }

  /** `links` are the first words of the blocks: the next block of a free one, the
      requested size of a live one. */
  datatype Machine = Machine(links: Links, heads: Heads, counts: map<Key, nat>, pc: map<Tid, Pc>)

  datatype Step =
    | StartAlloc(t: Tid, size: nat)
    | PopLoad(t: Tid)
    | PopNext(t: Tid)
    | PopSwap(t: Tid, spurious: bool)
    | BatchPut(t: Tid)
    | Serve(t: Tid, page: Option<nat>, run: Option<nat>)
    | StartFree(t: Tid, b: nat)
    | Walk(t: Tid)
    | PushLoad(t: Tid)
    | PushLink(t: Tid)
    | PushSwap(t: Tid, spurious: bool)

  // ------------------------------------------------------------------
  // The machine
  // ------------------------------------------------------------------

  function PcAt(m: Machine, t: Tid): Pc { if t in m.pc then m.pc[t] else Idle }
  function Word(m: Machine, b: nat): nat { if b in m.links then m.links[b] else 0 }
  function HeadAt(m: Machine, k: Key): nat { Num(m.heads, k) }
  function GotoPc(m: Machine, t: Tid, pc: Pc): Machine { m.(pc := m.pc[t := pc]) }

  /** A count never falls below what is subtracted, as `CountsAndWalks` shows. */
  function Less(a: nat, n: nat): nat { if n <= a then a - n else 0 }

  /** Unlink the first block of a local list and write the requested size over
      the link. */
  function TakeFirst(m: Machine, t: Tid, c: nat, size: nat): Machine {
    var k, b := Local(t, c), HeadAt(m, Local(t, c));
    m.(links := m.links[b := size], heads := m.heads[k := Word(m, b)],
       counts := m.counts[k := Less(Num(m.counts, k), 1)])
  }

  /** The end of a batch: its last block goes to the program, if there is one. */
  function EndBatch(m: Machine, t: Tid, c: nat, size: nat, moved: nat): Machine {
    if moved > 0 then GotoPc(TakeFirst(m, t, c, size), t, Idle) else GotoPc(m, t, Missing(c, size))
  }

  /** The loop of the global pop, with the head just learned: null ends it. */
  function TryPop(m: Machine, t: Tid, c: nat, size: nat, moved: nat): Machine {
    var head := HeadAt(m, Global(c));
    if head == 0 then EndBatch(m, t, c, size, moved) else GotoPc(m, t, Read(c, size, moved, head))
  }

  function PutFirst(m: Machine, t: Tid, c: nat, b: nat): Machine {
    var k := Local(t, c);
    m.(links := m.links[b := HeadAt(m, k)], heads := m.heads[k := b], counts := m.counts[k := Num(m.counts, k) + 1])
  }

  /** The blocks of a fresh page but the first, pushed in order. */
  function FillPage(m: Machine, t: Tid, c: nat, base: nat, n: nat): Machine {
    if n == 0 then m else PutFirst(FillPage(m, t, c, base, n - 1), t, c, base + n * BlockSize(c))
  }

  /** The flush ends the batch at `tail`; what follows stays local. */
  function CutAt(m: Machine, t: Tid, c: nat, n: nat, tail: nat): Machine {
    var k := Local(t, c);
    m.(links := m.links[tail := 0], heads := m.heads[k := Word(m, tail)],
       counts := m.counts[k := Less(Num(m.counts, k), n)])
  }

  /** One step of the code. */
  function Next(m: Machine, e: Step): Machine {
    var pc := PcAt(m, e.t);
    match e
    case StartAlloc(t, size) =>
      var c := ClassFor(CacheSize(size));
      if HeadAt(m, Local(t, c)) != 0 then GotoPc(TakeFirst(m, t, c, size), t, Idle)
      else GotoPc(m, t, if HeadAt(m, Global(c)) != 0 then Batch(c, size, 0) else Missing(c, size))
    case PopLoad(t) =>
      if !pc.Batch? then m
      else if pc.moved < GLOBAL_FREE_BATCH then TryPop(m, t, pc.c, pc.size, pc.moved)
      else EndBatch(m, t, pc.c, pc.size, pc.moved)
    case PopNext(t) =>
      if !pc.Read? then m else GotoPc(m, t, ToPop(pc.c, pc.size, pc.moved, pc.cur, Word(m, pc.cur)))
    case PopSwap(t, spurious) =>
      if !pc.ToPop? then m
      else if HeadAt(m, Global(pc.c)) == pc.cur && !spurious then
        GotoPc(m.(heads := m.heads[Global(pc.c) := pc.next]), t, Holding(pc.c, pc.size, pc.moved, pc.cur))
      else TryPop(m, t, pc.c, pc.size, pc.moved)
    case BatchPut(t) =>
      if !pc.Holding? then m else GotoPc(PutFirst(m, t, pc.c, pc.b), t, Batch(pc.c, pc.size, pc.moved + 1))
    case Serve(t, page, run) =>
      if !pc.Missing? then m
      else if BlocksPerPage(pc.c) > 1 && page.Some? then
        var filled := FillPage(m, t, pc.c, page.value, BlocksPerPage(pc.c) - 1);
        GotoPc(filled.(links := filled.links[page.value := pc.size]), t, Idle)
      else if run.Some? then GotoPc(m.(links := m.links[run.value := pc.size]), t, Idle)
      else GotoPc(m, t, Idle)
    case StartFree(t, b) =>
      var c := ClassFor(CacheSize(Word(m, b)));
      var m' := PutFirst(m, t, c, b);
      var count := Num(m'.counts, Local(t, c));
      var head := HeadAt(m', Local(t, c));
      GotoPc(m', t, if count >= MAX_FREE_LIST_LENGTH then Walking(c, count / 2, head, head, 1) else Idle)
    case Walk(t) =>
      if !pc.Walking? then m
      else if pc.walked < pc.n && pc.tail != 0 then
        GotoPc(m, t, Walking(pc.c, pc.n, pc.head, Word(m, pc.tail), pc.walked + 1))
      else if pc.tail != 0 then GotoPc(CutAt(m, t, pc.c, pc.n, pc.tail), t, ToLoad(pc.c, pc.head, pc.tail))
      else GotoPc(m, t, Idle)
    case PushLoad(t) =>
      if !pc.ToLoad? then m else GotoPc(m, t, ToLink(pc.c, pc.head, pc.tail, HeadAt(m, Global(pc.c))))
    case PushLink(t) =>
      if !pc.ToLink? then m
      else GotoPc(m.(links := m.links[pc.tail := pc.cur]), t, ToSwap(pc.c, pc.head, pc.tail, pc.cur))
    case PushSwap(t, spurious) =>
      if !pc.ToSwap? then m
      else if HeadAt(m, Global(pc.c)) == pc.cur && !spurious then
        GotoPc(m.(heads := m.heads[Global(pc.c) := pc.head]), t, Idle)
      else GotoPc(m, t, ToLink(pc.c, pc.head, pc.tail, HeadAt(m, Global(pc.c))))
  }

  // ------------------------------------------------------------------
  // The books
  // ------------------------------------------------------------------

  /** `lists` are the free lists as sequences, `place` who has each carved block,
      `kinds` the class it was carved for, `batch` the blocks each thread flushes. */
  datatype State = State(
    m: Machine,
    lists: Lists,
    place: Places,
    kinds: map<nat, nat>,
    batch: map<Tid, seq<nat>>)

  const INITIAL := State(Machine(map[], map[], map[], map[]), map[], map[], map[], map[])

  function PcOf(s: State, t: Tid): Pc { PcAt(s.m, t) }
  function List(s: State, k: Key): seq<nat> { ListAt(s.lists, k) }
  function Head(s: State, k: Key): nat { HeadAt(s.m, k) }
  function BatchOf(s: State, t: Tid): seq<nat> { if t in s.batch then s.batch[t] else [] }
  function Goto(s: State, t: Tid, pc: Pc): State { s.(m := GotoPc(s.m, t, pc)) }
  function First(x: seq<nat>, n: nat): seq<nat> { if n <= |x| then x[..n] else x }
  function Rest(x: seq<nat>, n: nat): seq<nat> { if n <= |x| then x[n..] else [] }

  /** Pages are fresh, requests small, and callers free live blocks. */
  ghost predicate Enabled(s: State, e: Step) {
    match e
    case StartAlloc(t, size) => PcOf(s, t).Idle? && 1 <= size <= MAX_CACHE_SIZE
    case PopLoad(t) => PcOf(s, t).Batch?
    case PopNext(t) => PcOf(s, t).Read?
    case PopSwap(t, _) => PcOf(s, t).ToPop?
    case BatchPut(t) => PcOf(s, t).Holding?
    case Serve(t, page, run) =>
      && PcOf(s, t).Missing?
      && (page.Some? ==> page.value > 0 && PlacesApart(s.place, page.value))
      && (run.Some? ==> run.value > 0 && run.value !in s.place)
    case StartFree(t, b) => PcOf(s, t).Idle? && b in s.place && s.place[b] == Live
    case Walk(t) => PcOf(s, t).Walking?
    case PushLoad(t) => PcOf(s, t).ToLoad?
    case PushLink(t) => PcOf(s, t).ToLink?
    case PushSwap(t, _) => PcOf(s, t).ToSwap?
  }

  /** The first block of a local list goes to the program. */
  ghost function Taken(s: State, t: Tid, c: nat, size: nat): State {
    var k := Local(t, c);
    s.(m := TakeFirst(s.m, t, c, size), lists := s.lists[k := Rest(List(s, k), 1)],
       place := s.place[Head(s, k) := Live])
  }

  /** The first block of a global list goes to the hand of a thread, which makes
      `next` the head. */
  ghost function Popped(s: State, t: Tid, c: nat, next: nat): State {
    var g := Global(c);
    s.(m := s.m.(heads := s.m.heads[g := next]), lists := s.lists[g := Rest(List(s, g), 1)],
       place := s.place[Head(s, g) := Held(t, c)])
  }

  ghost function Ended(s: State, t: Tid, c: nat, size: nat, moved: nat): State {
    if moved > 0 then Goto(Taken(s, t, c, size), t, Idle) else Goto(s, t, Missing(c, size))
  }

  ghost function Tried(s: State, t: Tid, c: nat, size: nat, moved: nat): State {
    var head := Head(s, Global(c));
    if head == 0 then Ended(s, t, c, size, moved) else Goto(s, t, Read(c, size, moved, head))
  }

  /** A block goes to the front of the local list of a thread. */
  ghost function Put(s: State, t: Tid, c: nat, b: nat): State {
    var k := Local(t, c);
    s.(m := PutFirst(s.m, t, c, b), lists := s.lists[k := [b] + List(s, k)], place := s.place[b := In(k)],
       kinds := s.kinds[b := c])
  }

  /** A block of fresh memory goes straight to the program. */
  ghost function Born(s: State, c: nat, b: nat, size: nat): State {
    s.(m := s.m.(links := s.m.links[b := size]), place := s.place[b := Live], kinds := s.kinds[b := c])
  }

  ghost function Filled(s: State, t: Tid, c: nat, base: nat, n: nat): State {
    if n == 0 then s else Put(Filled(s, t, c, base, n - 1), t, c, base + n * BlockSize(c))
  }

  /** The first `n` blocks of the local list are in the thread's hands. */
  ghost function Cut(s: State, t: Tid, c: nat, n: nat, tail: nat): State {
    var k, list := Local(t, c), List(s, Local(t, c));
    s.(m := CutAt(s.m, t, c, n, tail), lists := s.lists[k := Rest(list, n)],
       place := Rehomed(s.place, First(list, n), Held(t, c)), batch := s.batch[t := First(list, n)])
  }

  /** A thread writes the first word of a block in its hands. */
  function Written(s: State, b: nat, v: nat): State { s.(m := s.m.(links := s.m.links[b := v])) }

  /** The thread's batch is in front of the global list. */
  ghost function Joined(s: State, t: Tid, c: nat, head: nat): State {
    var g := Global(c);
    s.(m := s.m.(heads := s.m.heads[g := head]), lists := s.lists[g := BatchOf(s, t) + List(s, g)],
       place := Rehomed(s.place, BatchOf(s, t), In(g)))
  }

  /** The step with the books kept: which entries to make is decided by what the
      machine does. */
  ghost function After(s: State, e: Step): State
    requires Enabled(s, e)
  {
    var pc := PcOf(s, e.t);
    match e
    case StartAlloc(t, size) =>
      var c := ClassFor(CacheSize(size));
      if Head(s, Local(t, c)) != 0 then Goto(Taken(s, t, c, size), t, Idle)
      else Goto(s, t, if Head(s, Global(c)) != 0 then Batch(c, size, 0) else Missing(c, size))
    case PopLoad(t) =>
      if pc.moved < GLOBAL_FREE_BATCH then Tried(s, t, pc.c, pc.size, pc.moved)
      else Ended(s, t, pc.c, pc.size, pc.moved)
    case PopNext(t) => Goto(s, t, ToPop(pc.c, pc.size, pc.moved, pc.cur, Word(s.m, pc.cur)))
    case PopSwap(t, spurious) =>
      if Head(s, Global(pc.c)) == pc.cur && !spurious then
        Goto(Popped(s, t, pc.c, pc.next), t, Holding(pc.c, pc.size, pc.moved, pc.cur))
      else Tried(s, t, pc.c, pc.size, pc.moved)
    case BatchPut(t) => Goto(Put(s, t, pc.c, pc.b), t, Batch(pc.c, pc.size, pc.moved + 1))
    case Serve(t, page, run) =>
      var c := pc.c;
      if BlocksPerPage(c) > 1 && page.Some? then
        Goto(Born(Filled(s, t, c, page.value, BlocksPerPage(c) - 1), c, page.value, pc.size), t, Idle)
      else if run.Some? then Goto(Born(s, c, run.value, pc.size), t, Idle)
      else Goto(s, t, Idle)
    case StartFree(t, b) =>
      var c := ClassFor(CacheSize(Word(s.m, b)));
      var s' := Put(s, t, c, b);
      var count := Num(s'.m.counts, Local(t, c));
      var head := Head(s', Local(t, c));
      Goto(s', t, if count >= MAX_FREE_LIST_LENGTH then Walking(c, count / 2, head, head, 1) else Idle)
    case Walk(t) =>
      if pc.walked < pc.n && pc.tail != 0 then
        Goto(s, t, Walking(pc.c, pc.n, pc.head, Word(s.m, pc.tail), pc.walked + 1))
      else if pc.tail != 0 then Goto(Cut(s, t, pc.c, pc.n, pc.tail), t, ToLoad(pc.c, pc.head, pc.tail))
      else Goto(s, t, Idle)
    case PushLoad(t) => Goto(s, t, ToLink(pc.c, pc.head, pc.tail, Head(s, Global(pc.c))))
    case PushLink(t) =>
      Goto(Written(s, pc.tail, pc.cur), t, ToSwap(pc.c, pc.head, pc.tail, pc.cur))
    case PushSwap(t, spurious) =>
      if Head(s, Global(pc.c)) == pc.cur && !spurious then Goto(Joined(s, t, pc.c, pc.head), t, Idle)
      else Goto(s, t, ToLink(pc.c, pc.head, pc.tail, Head(s, Global(pc.c))))
  }

  /** The machine steps without looking at the books. */
  lemma BooksAreAuxiliary(s: State, e: Step)
    requires Enabled(s, e)
    ensures After(s, e).m == Next(s.m, e)
  {
    hide TakeFirst, PutFirst, CutAt, GotoPc, FillPage, Filled, ClassFor, CacheSize, BlocksPerPage, PlacesApart, Num;
    if e.Serve? && e.page.Some? && BlocksPerPage(PcOf(s, e.t).c) > 1 {
      FilledMachine(s, e.t, PcOf(s, e.t).c, e.page.value, BlocksPerPage(PcOf(s, e.t).c) - 1);
    }
  }

  lemma {:induction false} FilledMachine(s: State, t: Tid, c: nat, base: nat, n: nat)
    ensures Filled(s, t, c, base, n).m == FillPage(s.m, t, c, base, n)
    decreases n
  {
    hide PutFirst, BlockSize;
    if n > 0 {
      FilledMachine(s, t, c, base, n - 1);
    }
  }

  // ------------------------------------------------------------------
  // The invariant
  // ------------------------------------------------------------------

  ghost predicate StoreOk(s: State) {
    && ChainsOk(s.m.links, s.m.heads, s.lists) && PlacesOk(s.lists, s.place) && CountsOk(s.m.counts, s.lists)
    && KindsOk(s.place, s.kinds) && HeadersOk(s.m.links, s.place, s.kinds)
  }

  /** The blocks a thread has in hand. */
  function Hand(pc: Pc, batch: seq<nat>): seq<nat> {
    if pc.Holding? then [pc.b] else if pc.Pushing() then batch else []
  }

  function HandOf(s: State, t: Tid): seq<nat> { Hand(PcOf(s, t), BatchOf(s, t)) }

  predicate IsHeld(s: State, b: nat, t: Tid, c: nat) {
    b in s.place && s.place[b] == Held(t, c)
  }

  /** Exactly the blocks in hand are placed there. */
  ghost predicate HandOk(s: State, t: Tid) {
    forall b: nat, c: nat :: IsHeld(s, b, t, c) <==> b in HandOf(s, t) && PcOf(s, t).c == c
  }

  /** Local lists stay below the limit; only during the walk of a flush is the
      one being flushed at it. */
  ghost predicate LengthsOk(s: State, t: Tid) {
    forall c :: |List(s, Local(t, c))| < MAX_FREE_LIST_LENGTH
             || (PcOf(s, t).Walking? && PcOf(s, t).c == c && |List(s, Local(t, c))| == MAX_FREE_LIST_LENGTH)
  }

  /** `head` and `tail` are the ends of the linked batch. */
  ghost predicate BatchOk(s: State, t: Tid, head: nat, tail: nat) {
    var batch := BatchOf(s, t);
    batch != [] && Segment(s.m.links, batch) && head == batch[0] && tail == batch[|batch| - 1]
  }

  ghost predicate PointOk(s: State, t: Tid) {
    match PcOf(s, t)
    case Idle => true
    case Batch(c, size, moved) => Fits(c, size) && |List(s, Local(t, c))| == moved <= GLOBAL_FREE_BATCH
    case Read(c, size, moved, cur) => Fits(c, size) && |List(s, Local(t, c))| == moved < GLOBAL_FREE_BATCH && cur != 0
    case ToPop(c, size, moved, cur, _) =>
      Fits(c, size) && |List(s, Local(t, c))| == moved < GLOBAL_FREE_BATCH && cur != 0
    case Holding(c, size, moved, b) => Fits(c, size) && |List(s, Local(t, c))| == moved < GLOBAL_FREE_BATCH && b != 0
    case Missing(c, size) => Fits(c, size) && List(s, Local(t, c)) == []
    case Walking(c, n, head, tail, walked) =>
      && n == MAX_FREE_LIST_LENGTH / 2 && 1 <= walked <= n
      && |List(s, Local(t, c))| == MAX_FREE_LIST_LENGTH && head == List(s, Local(t, c))[0]
      && tail == List(s, Local(t, c))[walked - 1] && tail != 0
    case ToLoad(c, head, tail) => BatchOk(s, t, head, tail)
    case ToLink(c, head, tail, _) => BatchOk(s, t, head, tail)
    case ToSwap(c, head, tail, cur) => BatchOk(s, t, head, tail) && Word(s.m, tail) == cur
  }

  ghost predicate ThreadOk(s: State, t: Tid) {
    HandOk(s, t) && LengthsOk(s, t) && PointOk(s, t)
  }

  ghost predicate Inv(s: State) {
    StoreOk(s) && forall t: Tid :: ThreadOk(s, t)
  }

  /** A global pop succeeds though its block has another successor by now. */
  predicate Stale(m: Machine, e: Step) {
    e.PopSwap? && !e.spurious && PcAt(m, e.t).ToPop? && HeadAt(m, Global(PcAt(m, e.t).c)) == PcAt(m, e.t).cur
    && PcAt(m, e.t).next != Word(m, PcAt(m, e.t).cur)
  }

  // ------------------------------------------------------------------
  // What a step of thread `t` leaves alone
  // ------------------------------------------------------------------

  /** No other thread's variables, lists or blocks in hand change. */
  ghost predicate Framed(s: State, s': State, t: Tid) {
    && (forall u: Tid :: u != t ==> PcOf(s', u) == PcOf(s, u))
    && (forall u: Tid :: u != t ==> BatchOf(s', u) == BatchOf(s, u))
    && (forall u: Tid, c: nat :: u != t ==> List(s', Local(u, c)) == List(s, Local(u, c)))
    && (forall u: Tid, b: nat, c: nat :: u != t ==> (IsHeld(s', b, u, c) <==> IsHeld(s, b, u, c)))
    && (forall u: Tid, b: nat, c: nat :: u != t && IsHeld(s, b, u, c) && b in s.m.links ==>
        b in s'.m.links && s'.m.links[b] == s.m.links[b])
  }

  lemma OthersKept(s: State, s': State, t: Tid, u: Tid)
    requires ThreadOk(s, u) && u != t && Framed(s, s', t)
    ensures ThreadOk(s', u)
  {
    var pc, batch := PcOf(s, u), BatchOf(s, u);
    if pc.Pushing() {
      forall i | 0 <= i < |batch|
        ensures batch[i] in s'.m.links && s'.m.links[batch[i]] == s.m.links[batch[i]]
      {
        assert batch[i] in HandOf(s, u) && IsHeld(s, batch[i], u, pc.c);
      }
    }
  }

  lemma StepKeeps(s: State, s': State, t: Tid)
    requires Inv(s) && StoreOk(s') && Framed(s, s', t) && ThreadOk(s', t)
    ensures Inv(s')
  {
    hide StoreOk, Framed, ThreadOk;
    forall u: Tid
      ensures ThreadOk(s', u)
    {
      if u != t {
        OthersKept(s, s', t, u);
      }
    }
  }

  // ------------------------------------------------------------------
  // Each effect keeps the lists, the counts and the places
  // ------------------------------------------------------------------

  lemma TakenKeeps(s: State, t: Tid, c: nat, size: nat)
    requires StoreOk(s) && Head(s, Local(t, c)) != 0 && Fits(c, size)
    ensures var k, s' := Local(t, c), Taken(s, t, c, size);
            var b := Head(s, k);
            && List(s, k) != [] && b == List(s, k)[0] && b in s.place && s.place[b] == In(k)
            && b in s.kinds && s.kinds[b] == c
            && s' == s.(m := s'.m, lists := s.lists[k := List(s, k)[1..]], place := s.place[b := Live])
            && s'.m.pc == s.m.pc && s'.m.links == s.m.links[b := size]
            && StoreOk(s')
  {
    hide ChainsOk, PlacesOk, CountsOk, KindsOk, HeadersOk, Fits;
    var k := Local(t, c);
    var b := Head(s, k);
    FirstLinked(s, k);
    PopChains(s.m.links, s.m.heads, s.lists, s.place, k, size);
    PopPlaces(s.lists, s.place, k, Live) by { ListDistinct(s.m.links, s.m.heads, s.lists, k); }
    KindOf(s.place, s.kinds, b);
    KindsKept(s.place, s.kinds, b, Live, s.kinds[b]);
    HeadersKept(s.m.links, s.place, s.kinds, b, size, Live, s.kinds[b]);
    CountIs(s.m.counts, s.lists, k);
    CountsKept(s.m.counts, s.lists, k, List(s, k)[1..]);
  }

  /** A pop whose successor is the true one. */
  lemma PoppedKeeps(s: State, t: Tid, c: nat, next: nat)
    requires StoreOk(s) && Head(s, Global(c)) != 0 && next == Word(s.m, Head(s, Global(c)))
    ensures var g, s' := Global(c), Popped(s, t, c, next);
            var b := Head(s, g);
            && List(s, g) != [] && b == List(s, g)[0] && b in s.place && s.place[b] == In(g)
            && s' == s.(m := s'.m, lists := s.lists[g := List(s, g)[1..]], place := s.place[b := Held(t, c)])
            && s'.m.pc == s.m.pc && s'.m.links == s.m.links
            && StoreOk(s')
  {
    hide ChainsOk, PlacesOk, CountsOk, KindsOk, HeadersOk;
    var g := Global(c);
    var b := Head(s, g);
    FirstLinked(s, g);
    assert s.m.links[b := next] == s.m.links;
    PopChains(s.m.links, s.m.heads, s.lists, s.place, g, next);
    PopPlaces(s.lists, s.place, g, Held(t, c)) by { ListDistinct(s.m.links, s.m.heads, s.lists, g); }
    KindOf(s.place, s.kinds, b);
    KindsKept(s.place, s.kinds, b, Held(t, c), s.kinds[b]);
    HeadersKept(s.m.links, s.place, s.kinds, b, next, Held(t, c), s.kinds[b]);
    GlobalKeepsCounts(s.m.counts, s.lists, c, List(s, g)[1..]);
  }

  lemma FirstLinked(s: State, k: Key)
    requires ChainsOk(s.m.links, s.m.heads, s.lists) && Head(s, k) != 0
    ensures Head(s, k) in s.m.links && List(s, k) != []
  {
    ChainAt(s.m.links, s.m.heads, s.lists, k);
    LinkedPop(s.m.links, Head(s, k), List(s, k));
  }

  lemma PutKeeps(s: State, t: Tid, c: nat, b: nat)
    requires StoreOk(s) && b != 0 && (b in s.place ==> !s.place[b].In?)
    ensures StoreOk(Put(s, t, c, b))
    ensures var k := Local(t, c); Num(Put(s, t, c, b).m.counts, k) == |List(s, k)| + 1
  {
    hide ChainsOk, PlacesOk, CountsOk, KindsOk, HeadersOk;
    var k := Local(t, c);
    PushChains(s.m.links, s.m.heads, s.lists, s.place, k, b);
    PushPlaces(s.lists, s.place, k, b);
    CountIs(s.m.counts, s.lists, k);
    CountsKept(s.m.counts, s.lists, k, [b] + List(s, k));
    KindsKept(s.place, s.kinds, b, In(k), c);
    HeadersKept(s.m.links, s.place, s.kinds, b, Head(s, k), In(k), c);
  }

  lemma BornKeeps(s: State, c: nat, b: nat, size: nat)
    requires StoreOk(s) && b != 0 && b !in s.place && Fits(c, size)
    ensures StoreOk(Born(s, c, b, size))
  {
    hide ChainsOk, PlacesOk, CountsOk, KindsOk, HeadersOk, Fits;
    WriteChains(s.m.links, s.m.heads, s.lists, s.place, b, size);
    KindsKept(s.place, s.kinds, b, Live, c);
    LiveIsListed(s.lists, s.place, b);
    HeadersKept(s.m.links, s.place, s.kinds, b, size, Live, c);
  }

  /** `n` blocks, those of `more`, went on a local list; else nothing changed. */
  ghost predicate Grown(s: State, s': State, t: Tid, c: nat, n: nat, more: set<nat>) {
    && s'.m.pc == s.m.pc && s'.batch == s.batch
    && |List(s', Local(t, c))| == |List(s, Local(t, c))| + n
    && (forall k :: k != Local(t, c) ==> List(s', k) == List(s, k))
    && s'.place.Keys == s.place.Keys + more
    && (forall x :: x in s.place ==> s'.place[x] == s.place[x])
    && (forall x :: x in s'.place && x !in s.place ==> s'.place[x] == In(Local(t, c)))
    && (forall x :: x in s.place && x in s.m.links ==> x in s'.m.links && s'.m.links[x] == s.m.links[x])
  }

  lemma GrowOne(s: State, s1: State, t: Tid, c: nat, n: nat, more: set<nat>, b: nat)
    requires Grown(s, s1, t, c, n, more) && b !in s.place.Keys + more
    ensures Grown(s, Put(s1, t, c, b), t, c, n + 1, more + {b})
  {
    var s' := Put(s1, t, c, b);
    forall k | k != Local(t, c)
      ensures List(s', k) == List(s, k)
    {
      assert List(s', k) == List(s1, k);
    }
    hide ListAt;
  }

  lemma {:induction false} FilledKeeps(s: State, t: Tid, c: nat, base: nat, n: nat)
    requires StoreOk(s) && c < NUM_CLASSES && base > 0 && n < BlocksPerPage(c) && PlacesApart(s.place, base)
    ensures var s' := Filled(s, t, c, base, n);
            StoreOk(s') && Grown(s, s', t, c, n, Row(base + BlockSize(c), BlockSize(c), n))
    decreases n
  {
    hide StoreOk, BlocksPerPage, BlockSize, Row, PlacesApart, Grown, Put;
    if n == 0 {
      RowStart(base + BlockSize(c), BlockSize(c));
      GrownNothing(s, t, c);
    } else {
      FilledKeeps(s, t, c, base, n - 1);
      PageFits(c);
      RowNext(s.place, base, BlockSize(c), n, BlocksPerPage(c));
      RowGrows(base, BlockSize(c), n);
      NotZero(base, n, BlockSize(c));
      var s1, b := Filled(s, t, c, base, n - 1), base + n * BlockSize(c);
      assert s1.place.Keys == s.place.Keys + Row(base + BlockSize(c), BlockSize(c), n - 1) by {
        GrownKeys(s, s1, t, c, n - 1, Row(base + BlockSize(c), BlockSize(c), n - 1));
      }
      GrowOne(s, s1, t, c, n - 1, Row(base + BlockSize(c), BlockSize(c), n - 1), b);
      PutKeeps(s1, t, c, b);
    }
  }

  lemma GrownNothing(s: State, t: Tid, c: nat)
    ensures Grown(s, s, t, c, 0, {})
  {
  }

  lemma GrownKeys(s: State, s': State, t: Tid, c: nat, n: nat, more: set<nat>)
    requires Grown(s, s', t, c, n, more)
    ensures s'.place.Keys == s.place.Keys + more
  {
  }

  lemma NotZero(base: nat, n: nat, size: nat)
    requires base > 0
    ensures base + n * size > 0
  {
  }

  /** A flush that cuts at the n-th block cuts off the first `n`. */
  lemma CutKeeps(s: State, t: Tid, c: nat, n: nat, tail: nat)
    requires StoreOk(s) && 0 < n <= |List(s, Local(t, c))| && tail == List(s, Local(t, c))[n - 1]
    ensures var k, list, s' := Local(t, c), List(s, Local(t, c)), Cut(s, t, c, n, tail);
            && tail in s.m.links && Distinct(list)
            && s' == s.(m := s'.m, lists := s.lists[k := list[n..]],
                        place := Rehomed(s.place, list[..n], Held(t, c)), batch := s.batch[t := list[..n]])
            && s'.m.pc == s.m.pc && s'.m.links == s.m.links[tail := 0]
            && StoreOk(s') && Segment(s'.m.links, list[..n])
  {
    hide ChainsOk, PlacesOk, CountsOk, KindsOk, HeadersOk, Linked, Segment;
    var k, list := Local(t, c), List(s, Local(t, c));
    ChainAt(s.m.links, s.m.heads, s.lists, k);
    LinkedWalk(s.m.links, Head(s, k), list, n - 1);
    ListDistinct(s.m.links, s.m.heads, s.lists, k);
    CutChains(s, t, c, n);
    CutPlaces(s.lists, s.place, t, c, n);
    FlushedKinds(s.lists, s.place, s.kinds, t, c, n);
    HeldKinds(s.place, s.kinds, list[..n], t, c);
    CutHeaders(s, t, c, n);
    CountIs(s.m.counts, s.lists, k);
    CountsKept(s.m.counts, s.lists, k, list[n..]);
    SegmentOf(s.m.links, Head(s, k), list, n);
    assert list[..n][n - 1] == list[n - 1];
    SegmentRelink(s.m.links, list[..n], 0);
  }

  lemma CutChains(s: State, t: Tid, c: nat, n: nat)
    requires ChainsOk(s.m.links, s.m.heads, s.lists) && PlacesOk(s.lists, s.place) && 0 < n <= |List(s, Local(t, c))|
    ensures var k, list := Local(t, c), List(s, Local(t, c));
            list[n - 1] in s.m.links
            && ChainsOk(s.m.links[list[n - 1] := 0], s.m.heads[k := s.m.links[list[n - 1]]], s.lists[k := list[n..]])
  {
    hide Linked;
    var k, list := Local(t, c), List(s, Local(t, c));
    var tail := list[n - 1];
    ChainAt(s.m.links, s.m.heads, s.lists, k);
    LinkedRest(s.m.links, Head(s, k), list, n);
    assert tail in list;
    assert tail in s.place && s.place[tail] == In(k);
    var links', heads', lists' := s.m.links[tail := 0], s.m.heads[k := s.m.links[tail]], s.lists[k := list[n..]];
    forall j
      ensures Linked(links', Num(heads', j), ListAt(lists', j))
    {
      if j == k {
        TailNotInRest(s.m.links, s.m.heads, s.lists, k, n);
        LinkedFrame(s.m.links, s.m.links[tail], list[n..], tail, 0);
      } else {
        ChainAt(s.m.links, s.m.heads, s.lists, j);
        assert tail !in ListAt(s.lists, j);
        LinkedFrame(s.m.links, Num(s.m.heads, j), ListAt(s.lists, j), tail, 0);
      }
    }
  }

  lemma CutPlaces(lists: Lists, place: Places, t: Tid, c: nat, n: nat)
    requires PlacesOk(lists, place) && n <= |ListAt(lists, Local(t, c))| && Distinct(ListAt(lists, Local(t, c)))
    ensures var k, list := Local(t, c), ListAt(lists, Local(t, c));
            PlacesOk(lists[k := list[n..]], Rehomed(place, list[..n], Held(t, c)))
  {
    var k, list := Local(t, c), ListAt(lists, Local(t, c));
    var lists', place' := lists[k := list[n..]], Rehomed(place, list[..n], Held(t, c));
    Halves(list, n);
    hide Distinct;
    forall x
      ensures x in list <==> x in place && place[x] == In(k)
    {
      assert x in ListAt(lists, k) <==> x in place && place[x] == In(k);
    }
    forall j, x
      ensures x in ListAt(lists', j) <==> x in place' && place'[x] == In(j)
    {
      assert x in ListAt(lists, j) <==> x in place && place[x] == In(j);
    }
  }

  lemma CutHeaders(s: State, t: Tid, c: nat, n: nat)
    requires PlacesOk(s.lists, s.place) && HeadersOk(s.m.links, s.place, s.kinds) && 0 < n <= |List(s, Local(t, c))|
    ensures var list := List(s, Local(t, c));
            HeadersOk(s.m.links[list[n - 1] := 0], Rehomed(s.place, list[..n], Held(t, c)), s.kinds)
  {
    hide Fits;
    var list := List(s, Local(t, c));
    assert list[n - 1] in list && s.place[list[n - 1]] == In(Local(t, c));
  }

  lemma HeldKinds(place: Places, kinds: map<nat, nat>, batch: seq<nat>, t: Tid, c: nat)
    requires KindsOk(place, kinds) && forall x :: x in batch ==> x in kinds && kinds[x] == c
    ensures KindsOk(Rehomed(place, batch, Held(t, c)), kinds)
  {
  }

  lemma JoinedKeeps(s: State, t: Tid, c: nat, head: nat, tail: nat)
    requires StoreOk(s) && BatchOk(s, t, head, tail) && Word(s.m, tail) == Head(s, Global(c))
    requires forall b :: b in BatchOf(s, t) ==> IsHeld(s, b, t, c)
    ensures StoreOk(Joined(s, t, c, head))
  {
    hide ChainsOk, PlacesOk, CountsOk, KindsOk, HeadersOk, Linked;
    var batch := BatchOf(s, t);
    JoinChains(s, t, c, batch);
    hide Segment;
    JoinPlaces(s.lists, s.place, t, c, batch);
    GlobalKeepsCounts(s.m.counts, s.lists, c, batch + List(s, Global(c)));
    JoinKinds(s, t, c, batch);
    HeadersRehomed(s.m.links, s.place, s.kinds, batch, In(Global(c)));
  }

  lemma JoinChains(s: State, t: Tid, c: nat, batch: seq<nat>)
    requires ChainsOk(s.m.links, s.m.heads, s.lists) && PlacesOk(s.lists, s.place) && batch != []
    requires Segment(s.m.links, batch) && s.m.links[batch[|batch| - 1]] == Head(s, Global(c))
    requires forall b :: b in batch ==> IsHeld(s, b, t, c)
    ensures ChainsOk(s.m.links, s.m.heads[Global(c) := batch[0]], s.lists[Global(c) := batch + List(s, Global(c))])
  {
    hide Linked, Segment;
    var g := Global(c);
    ChainAt(s.m.links, s.m.heads, s.lists, g);
    forall x | x in batch
      ensures x !in List(s, g)
    {
      assert IsHeld(s, x, t, c);
    }
    SegmentJoin(s.m.links, batch, Head(s, g), List(s, g));
    var heads', lists' := s.m.heads[g := batch[0]], s.lists[g := batch + List(s, g)];
    forall j
      ensures Linked(s.m.links, Num(heads', j), ListAt(lists', j))
    {
      ChainAt(s.m.links, s.m.heads, s.lists, j);
    }
  }

  lemma JoinPlaces(lists: Lists, place: Places, t: Tid, c: nat, batch: seq<nat>)
    requires PlacesOk(lists, place) && forall b :: b in batch ==> b in place && place[b] == Held(t, c)
    ensures PlacesOk(lists[Global(c) := batch + ListAt(lists, Global(c))], Rehomed(place, batch, In(Global(c))))
  {
    var g := Global(c);
    var lists', place' := lists[g := batch + ListAt(lists, g)], Rehomed(place, batch, In(g));
    forall j, x
      ensures x in ListAt(lists', j) <==> x in place' && place'[x] == In(j)
    {
      assert x in ListAt(lists, j) <==> x in place && place[x] == In(j);
    }
  }

  lemma JoinKinds(s: State, t: Tid, c: nat, batch: seq<nat>)
    requires KindsOk(s.place, s.kinds) && forall b :: b in batch ==> IsHeld(s, b, t, c)
    ensures KindsOk(Rehomed(s.place, batch, In(Global(c))), s.kinds)
  {
    forall b | b in batch
      ensures b in s.kinds && s.kinds[b] == c
    {
      assert IsHeld(s, b, t, c);
    }
    FlushKinds(s.place, s.kinds, batch, c);
  }

  // ------------------------------------------------------------------
  // Each step keeps the invariant
  // ------------------------------------------------------------------

  /** An effect of thread `t` on the store alone. */
  ghost predicate OwnEffect(s: State, s': State, t: Tid) {
    && s'.m.pc == s.m.pc
    && (forall u: Tid :: u != t ==> BatchOf(s', u) == BatchOf(s, u))
    && (forall u: Tid, c: nat :: u != t ==> List(s', Local(u, c)) == List(s, Local(u, c)))
    && (forall u: Tid, b: nat, c: nat :: u != t ==> (IsHeld(s', b, u, c) <==> IsHeld(s, b, u, c)))
    && (forall u: Tid, b: nat, c: nat :: u != t && IsHeld(s, b, u, c) && b in s.m.links ==>
        b in s'.m.links && s'.m.links[b] == s.m.links[b])
  }

  lemma GotoFrames(s: State, s1: State, t: Tid, pc: Pc)
    requires OwnEffect(s, s1, t)
    ensures Framed(s, Goto(s1, t, pc), t) && PcOf(Goto(s1, t, pc), t) == pc
  {
  }

  lemma GotoStore(s: State, t: Tid, pc: Pc)
    requires StoreOk(s)
    ensures StoreOk(Goto(s, t, pc))
  {
    hide ChainsOk, PlacesOk, CountsOk, KindsOk, HeadersOk;
  }

  lemma NothingLocal(s: State, t: Tid)
    ensures OwnEffect(s, s, t)
  {
  }

  /** Moving a block that no other thread holds is local to `t`. */
  lemma TakenIsLocal(s: State, t: Tid, c: nat, size: nat)
    requires StoreOk(s) && Head(s, Local(t, c)) != 0 && Fits(c, size)
    ensures OwnEffect(s, Taken(s, t, c, size), t)
  {
    hide StoreOk, Fits;
    TakenKeeps(s, t, c, size);
    hide Taken;
  }

  lemma PoppedIsLocal(s: State, t: Tid, c: nat, next: nat)
    requires StoreOk(s) && Head(s, Global(c)) != 0 && next == Word(s.m, Head(s, Global(c)))
    ensures OwnEffect(s, Popped(s, t, c, next), t)
  {
    hide StoreOk;
    PoppedKeeps(s, t, c, next);
    hide Popped;
  }

  lemma PutIsLocal(s: State, t: Tid, c: nat, b: nat)
    requires b in s.place ==> s.place[b].Live? || s.place[b] == Held(t, c)
    ensures OwnEffect(s, Put(s, t, c, b), t)
  {
  }

  // A block from the local list

  lemma TakeLocalHands(s: State, t: Tid, c: nat, size: nat, pc: Pc)
    requires StoreOk(s) && HandOk(s, t) && PcOf(s, t).EmptyHanded() && pc.EmptyHanded() && Head(s, Local(t, c)) != 0
             && Fits(c, size)
    ensures HandOk(Goto(Taken(s, t, c, size), t, pc), t)
  {
    hide StoreOk, Fits;
    TakenKeeps(s, t, c, size);
    hide Taken;
    var s' := Goto(Taken(s, t, c, size), t, pc);
    forall b: nat, d: nat
      ensures !IsHeld(s', b, t, d)
    {
      assert !IsHeld(s, b, t, d);
    }
  }

  lemma TakeLocalLengths(s: State, t: Tid, c: nat, size: nat, pc: Pc)
    requires StoreOk(s) && LengthsOk(s, t) && !PcOf(s, t).Walking? && Head(s, Local(t, c)) != 0 && Fits(c, size)
    ensures LengthsOk(Goto(Taken(s, t, c, size), t, pc), t)
  {
    hide StoreOk, Fits;
    TakenKeeps(s, t, c, size);
    hide Taken;
    var s' := Goto(Taken(s, t, c, size), t, pc);
    forall d
      ensures |List(s', Local(t, d))| < MAX_FREE_LIST_LENGTH
    {
      assert |List(s, Local(t, d))| < MAX_FREE_LIST_LENGTH;
    }
  }

  lemma TakeLocalKeeps(s: State, t: Tid, c: nat, size: nat)
    requires Inv(s) && Head(s, Local(t, c)) != 0 && PcOf(s, t).EmptyHanded() && !PcOf(s, t).Walking? && Fits(c, size)
    ensures var s' := Goto(Taken(s, t, c, size), t, Idle); Inv(s') && Framed(s, s', t)
  {
    hide StoreOk, Taken, HandOk, LengthsOk, Framed, OwnEffect, Fits;
    assert ThreadOk(s, t);
    var s1 := Taken(s, t, c, size);
    TakenKeeps(s, t, c, size);
    TakenIsLocal(s, t, c, size);
    GotoFrames(s, s1, t, Idle);
    GotoStore(s1, t, Idle);
    TakeLocalHands(s, t, c, size, Idle);
    TakeLocalLengths(s, t, c, size, Idle);
    StepKeeps(s, Goto(s1, t, Idle), t);
  }

  // Steps that only move the thread

  lemma GotoKeeps(s: State, t: Tid, pc: Pc)
    requires Inv(s) && Hand(pc, BatchOf(s, t)) == HandOf(s, t) && (HandOf(s, t) != [] ==> pc.c == PcOf(s, t).c)
    requires PcOf(s, t).Walking? ==> pc.Walking? && pc.c == PcOf(s, t).c
    requires PointOk(Goto(s, t, pc), t)
    ensures Inv(Goto(s, t, pc)) && Framed(s, Goto(s, t, pc), t)
  {
    hide StoreOk, PointOk;
    var s' := Goto(s, t, pc);
    assert ThreadOk(s, t);
    NothingLocal(s, t);
    GotoFrames(s, s, t, pc);
    GotoStore(s, t, pc);
    GotoHands(s, t, pc);
    forall c
      ensures |List(s', Local(t, c))| < MAX_FREE_LIST_LENGTH
           || (pc.Walking? && pc.c == c && |List(s', Local(t, c))| == MAX_FREE_LIST_LENGTH)
    {
      assert List(s', Local(t, c)) == List(s, Local(t, c));
    }
    assert LengthsOk(s', t);
    hide Framed, HandOk, LengthsOk;
    StepKeeps(s, s', t);
  }

  lemma GotoHands(s: State, t: Tid, pc: Pc)
    requires HandOk(s, t) && Hand(pc, BatchOf(s, t)) == HandOf(s, t) && (HandOf(s, t) != [] ==> pc.c == PcOf(s, t).c)
    ensures HandOk(Goto(s, t, pc), t)
  {
    var s' := Goto(s, t, pc);
    assert HandOf(s', t) == HandOf(s, t);
    forall b: nat, c: nat
      ensures IsHeld(s', b, t, c) <==> b in HandOf(s', t) && pc.c == c
    {
      assert IsHeld(s', b, t, c) <==> IsHeld(s, b, t, c);
    }
  }

  // A pop of the batch

  lemma PoppedStepKeeps(s: State, t: Tid)
    requires PcOf(s, t).ToPop? && Head(s, Global(PcOf(s, t).c)) == PcOf(s, t).cur && !Stale(s.m, PopSwap(t, false))
    requires Inv(s)
    ensures var pc := PcOf(s, t);
            var s' := Goto(Popped(s, t, pc.c, pc.next), t, Holding(pc.c, pc.size, pc.moved, pc.cur));
            Inv(s') && Framed(s, s', t)
  {
    hide StoreOk, Framed, OwnEffect, Fits;
    var pc := PcOf(s, t);
    assert ThreadOk(s, t);
    PoppedKeeps(s, t, pc.c, pc.next);
    PoppedIsLocal(s, t, pc.c, pc.next);
    hide Popped;
    var s1, pc' := Popped(s, t, pc.c, pc.next), Holding(pc.c, pc.size, pc.moved, pc.cur);
    GotoFrames(s, s1, t, pc');
    GotoStore(s1, t, pc');
    var s' := Goto(s1, t, pc');
    forall x: nat, c: nat
      ensures IsHeld(s', x, t, c) <==> x in [pc.cur] && pc.c == c
    {
      assert !IsHeld(s, x, t, c);
    }
    SameLengths(s, s', t);
    StepKeeps(s, s', t);
  }

  lemma SameLengths(s: State, s': State, t: Tid)
    requires LengthsOk(s, t) && !PcOf(s, t).Walking? && forall c :: List(s', Local(t, c)) == List(s, Local(t, c))
    ensures LengthsOk(s', t)
  {
    forall c
      ensures |List(s', Local(t, c))| < MAX_FREE_LIST_LENGTH
    {
      assert |List(s, Local(t, c))| < MAX_FREE_LIST_LENGTH;
    }
  }

  // Putting a block on the local list

  /** What a put by `t` means for itself: the block leaves its hand. */
  lemma PutHands(s: State, t: Tid, c: nat, b: nat, pc: Pc)
    requires HandOk(s, t) && pc.EmptyHanded() && (HandOf(s, t) == [] || (HandOf(s, t) == [b] && PcOf(s, t).c == c))
    ensures HandOk(Goto(Put(s, t, c, b), t, pc), t)
  {
    var s' := Goto(Put(s, t, c, b), t, pc);
    forall x: nat, d: nat
      ensures !IsHeld(s', x, t, d)
    {
      assert IsHeld(s, x, t, d) ==> x == b;
    }
  }

  lemma PutLengths(s: State, t: Tid, c: nat, b: nat, pc: Pc)
    requires LengthsOk(s, t) && !PcOf(s, t).Walking?
    requires |List(s, Local(t, c))| + 1 < MAX_FREE_LIST_LENGTH || (pc.Walking? && pc.c == c)
    ensures LengthsOk(Goto(Put(s, t, c, b), t, pc), t)
  {
    var s' := Goto(Put(s, t, c, b), t, pc);
    forall d
      ensures |List(s', Local(t, d))| < MAX_FREE_LIST_LENGTH
           || (pc.Walking? && pc.c == d && |List(s', Local(t, d))| == MAX_FREE_LIST_LENGTH)
    {
      assert |List(s, Local(t, d))| < MAX_FREE_LIST_LENGTH;
    }
  }

  lemma PutStepKeeps(s: State, t: Tid, c: nat, b: nat, pc: Pc)
    requires Inv(s) && b != 0 && b in s.place && (s.place[b].Live? || s.place[b] == Held(t, c)) && pc.EmptyHanded()
    requires HandOf(s, t) == [] || (HandOf(s, t) == [b] && PcOf(s, t).c == c)
    requires !PcOf(s, t).Walking? && (|List(s, Local(t, c))| + 1 < MAX_FREE_LIST_LENGTH || (pc.Walking? && pc.c == c))
    requires PointOk(Goto(Put(s, t, c, b), t, pc), t)
    ensures var s' := Goto(Put(s, t, c, b), t, pc); Inv(s') && Framed(s, s', t)
  {
    hide StoreOk, Put, HandOk, LengthsOk, PointOk, Framed, OwnEffect;
    assert ThreadOk(s, t);
    PutKeeps(s, t, c, b);
    PutIsLocal(s, t, c, b);
    GotoFrames(s, Put(s, t, c, b), t, pc);
    GotoStore(Put(s, t, c, b), t, pc);
    PutHands(s, t, c, b, pc);
    PutLengths(s, t, c, b, pc);
    StepKeeps(s, Goto(Put(s, t, c, b), t, pc), t);
  }

  // A miss

  /** New blocks for `t` alone. */
  lemma BornStep(s: State, s1: State, t: Tid, c: nat, b: nat, size: nat)
    requires Inv(s) && PcOf(s, t).Missing? && PcOf(s, t).c == c && StoreOk(s1) && b != 0 && b !in s1.place
             && Fits(c, size)
    requires OwnEffect(s, s1, t) && |List(s1, Local(t, c))| < MAX_FREE_LIST_LENGTH
    requires forall d :: d != c ==> List(s1, Local(t, d)) == List(s, Local(t, d))
    requires forall x: nat, d: nat :: IsHeld(s1, x, t, d) <==> IsHeld(s, x, t, d)
    ensures var s' := Goto(Born(s1, c, b, size), t, Idle); Inv(s') && Framed(s, s', t)
  {
    hide StoreOk, Fits;
    assert ThreadOk(s, t);
    BornKeeps(s1, c, b, size);
    GotoStore(Born(s1, c, b, size), t, Idle);
    var s' := Goto(Born(s1, c, b, size), t, Idle);
    BornFrames(s, s1, t, c, b, size);
    forall x: nat, d: nat
      ensures !IsHeld(s', x, t, d)
    {
      assert !IsHeld(s, x, t, d) && !IsHeld(s1, x, t, d);
    }
    forall d
      ensures |List(s', Local(t, d))| < MAX_FREE_LIST_LENGTH
    {
      assert |List(s, Local(t, d))| < MAX_FREE_LIST_LENGTH;
    }
    assert LengthsOk(s', t);
    hide Framed, LengthsOk, HandOk;
    StepKeeps(s, s', t);
  }

  lemma BornFrames(s: State, s1: State, t: Tid, c: nat, b: nat, size: nat)
    requires OwnEffect(s, s1, t) && b !in s1.place
    ensures Framed(s, Goto(Born(s1, c, b, size), t, Idle), t)
  {
    var s' := Born(s1, c, b, size);
    forall u: Tid, x: nat, d: nat
      ensures IsHeld(s', x, u, d) <==> IsHeld(s1, x, u, d)
    {
    }
    assert OwnEffect(s, s', t);
    hide OwnEffect, Framed, Born;
    GotoFrames(s, s', t, Idle);
  }

  lemma GrownIsLocal(s: State, s1: State, t: Tid, c: nat, n: nat, more: set<nat>)
    requires Grown(s, s1, t, c, n, more)
    ensures OwnEffect(s, s1, t)
    ensures forall d :: d != c ==> List(s1, Local(t, d)) == List(s, Local(t, d))
    ensures forall x: nat, d: nat :: IsHeld(s1, x, t, d) <==> IsHeld(s, x, t, d)
  {
    forall u: Tid, x: nat, d: nat
      ensures IsHeld(s1, x, u, d) <==> IsHeld(s, x, u, d)
    {
    }
  }

  lemma ServeKeeps(s: State, t: Tid, page: Option<nat>, run: Option<nat>)
    requires Inv(s) && Enabled(s, Serve(t, page, run))
    ensures var s' := After(s, Serve(t, page, run)); Inv(s') && Framed(s, s', t)
  {
    hide StoreOk, Filled, Born, OwnEffect, Grown, Row, BlockSize, BlocksPerPage, HandOk, LengthsOk, Stacked, Framed;
    var c := PcOf(s, t).c;
    assert ThreadOk(s, t);
    if BlocksPerPage(c) > 1 && page.Some? {
      var n, base := BlocksPerPage(c) - 1, page.value;
      var s1, more := Filled(s, t, c, base, n), Row(base + BlockSize(c), BlockSize(c), n);
      FilledKeeps(s, t, c, base, n);
      GrownIsLocal(s, s1, t, c, n, more);
      PageIsShort(c);
      BaseIsNew(s, s1, t, c, base, n);
      BornStep(s, s1, t, c, base, PcOf(s, t).size);
    } else if run.Some? {
      NothingLocal(s, t);
      BornStep(s, s, t, c, run.value, PcOf(s, t).size);
    } else {
      GotoKeeps(s, t, Idle);
    }
  }

  lemma PageIsShort(c: nat)
    requires c < NUM_CLASSES
    ensures BlocksPerPage(c) <= PAGE_SIZE
  {
    ClassGeometry(c);
    ManyBlocks(BlocksPerPage(c), BlockSize(c));
  }

  /** The page's first block is none of those pushed, and the list is short. */
  lemma BaseIsNew(s: State, s1: State, t: Tid, c: nat, base: nat, n: nat)
    requires Grown(s, s1, t, c, n, Row(base + BlockSize(c), BlockSize(c), n)) && PlacesApart(s.place, base)
    requires c < NUM_CLASSES && n < BlocksPerPage(c) <= MAX_FREE_LIST_LENGTH && List(s, Local(t, c)) == []
    ensures base !in s1.place && |List(s1, Local(t, c))| < MAX_FREE_LIST_LENGTH
  {
    PageFits(c);
    hide BlockSize, BlocksPerPage;
    RowBelow(base + BlockSize(c), BlockSize(c), n);
  }

  // The flush

  lemma WalkStepKeeps(s: State, t: Tid)
    requires Inv(s) && PcOf(s, t).Walking? && PcOf(s, t).walked < PcOf(s, t).n
    ensures var pc := PcOf(s, t);
            var s' := Goto(s, t, Walking(pc.c, pc.n, pc.head, Word(s.m, pc.tail), pc.walked + 1));
            Inv(s') && Framed(s, s', t)
  {
    hide StoreOk, HandOk, LengthsOk, Linked, Framed;
    var pc := PcOf(s, t);
    var k := Local(t, pc.c);
    assert ThreadOk(s, t);
    assert Linked(s.m.links, Head(s, k), List(s, k)) by { StoreChain(s, k); }
    LinkedWalk(s.m.links, Head(s, k), List(s, k), pc.walked - 1);
    LinkedWalk(s.m.links, Head(s, k), List(s, k), pc.walked);
    GotoKeeps(s, t, Walking(pc.c, pc.n, pc.head, Word(s.m, pc.tail), pc.walked + 1));
  }

  lemma StoreChain(s: State, k: Key)
    requires StoreOk(s)
    ensures Linked(s.m.links, Head(s, k), List(s, k)) && (Head(s, k) == 0 <==> List(s, k) == [])
  {
    hide PlacesOk, CountsOk, KindsOk, HeadersOk;
    ChainAt(s.m.links, s.m.heads, s.lists, k);
  }

  lemma CutHands(s: State, t: Tid, c: nat, n: nat, tail: nat, pc: Pc)
    requires HandOk(s, t) && PcOf(s, t).EmptyHanded() && pc.Pushing() && pc.c == c
    requires StoreOk(s) && 0 < n <= |List(s, Local(t, c))| && tail == List(s, Local(t, c))[n - 1]
    ensures HandOk(Goto(Cut(s, t, c, n, tail), t, pc), t)
  {
    hide StoreOk, Segment;
    CutKeeps(s, t, c, n, tail);
    hide Cut;
    var batch := List(s, Local(t, c))[..n];
    var s' := Goto(Cut(s, t, c, n, tail), t, pc);
    assert HandOf(s', t) == batch;
    forall x: nat, d: nat
      ensures IsHeld(s', x, t, d) <==> x in batch && d == c
    {
      assert !IsHeld(s, x, t, d);
      if x in batch {
        Listed(s, t, c, x);
      }
    }
  }

  lemma Listed(s: State, t: Tid, c: nat, x: nat)
    requires StoreOk(s) && x in List(s, Local(t, c))
    ensures x in s.place && s.place[x] == In(Local(t, c))
  {
    hide ChainsOk, CountsOk, KindsOk, HeadersOk;
  }

  lemma CutIsLocal(s: State, t: Tid, c: nat, n: nat, tail: nat)
    requires StoreOk(s) && 0 < n <= |List(s, Local(t, c))| && tail == List(s, Local(t, c))[n - 1]
    ensures OwnEffect(s, Cut(s, t, c, n, tail), t)
  {
    hide StoreOk, Segment;
    CutKeeps(s, t, c, n, tail);
    hide Cut;
    var list, s' := List(s, Local(t, c)), Cut(s, t, c, n, tail);
    assert tail in list;
    Listed(s, t, c, tail);
    forall x | x in list[..n]
      ensures x in s.place && s.place[x] == In(Local(t, c))
    {
      Listed(s, t, c, x);
    }
    forall u: Tid, x: nat, d: nat | u != t
      ensures IsHeld(s', x, u, d) <==> IsHeld(s, x, u, d)
    {
    }
  }

  lemma CutStepKeeps(s: State, t: Tid)
    requires Inv(s) && PcOf(s, t).Walking? && PcOf(s, t).walked == PcOf(s, t).n
    ensures var pc := PcOf(s, t);
            var s' := Goto(Cut(s, t, pc.c, pc.n, pc.tail), t, ToLoad(pc.c, pc.head, pc.tail));
            Inv(s') && Framed(s, s', t)
  {
    hide StoreOk, HandOk, Segment, OwnEffect, Framed;
    var pc := PcOf(s, t);
    var c, n, tail, list := pc.c, pc.n, pc.tail, List(s, Local(t, pc.c));
    assert ThreadOk(s, t);
    var pc' := ToLoad(c, pc.head, tail);
    CutKeeps(s, t, c, n, tail);
    CutIsLocal(s, t, c, n, tail);
    CutHands(s, t, c, n, tail, pc');
    hide Cut;
    var s1 := Cut(s, t, c, n, tail);
    GotoFrames(s, s1, t, pc');
    GotoStore(s1, t, pc');
    var s' := Goto(s1, t, pc');
    forall d
      ensures |List(s', Local(t, d))| < MAX_FREE_LIST_LENGTH
    {
      assert d != c ==> List(s', Local(t, d)) == List(s, Local(t, d));
    }
    assert LengthsOk(s', t);
    assert BatchOf(s', t) == list[..n];
    hide LengthsOk;
    StepKeeps(s, s', t);
  }

  lemma LinkStepKeeps(s: State, t: Tid)
    requires Inv(s) && PcOf(s, t).ToLink?
    ensures var pc := PcOf(s, t);
            var s' := Goto(Written(s, pc.tail, pc.cur), t, ToSwap(pc.c, pc.head, pc.tail, pc.cur));
            Inv(s') && Framed(s, s', t)
  {
    hide StoreOk, Segment, Framed, OwnEffect;
    var pc, batch := PcOf(s, t), BatchOf(s, t);
    assert ThreadOk(s, t);
    assert pc.tail in batch && IsHeld(s, pc.tail, t, pc.c);
    var s1, pc' := Written(s, pc.tail, pc.cur), ToSwap(pc.c, pc.head, pc.tail, pc.cur);
    HeldWriteKeeps(s, pc.tail, pc.cur);
    SegmentRelink(s.m.links, batch, pc.cur);
    assert OwnEffect(s, s1, t) by { HeldWriteIsLocal(s, t, pc.c, pc.tail, pc.cur); }
    GotoFrames(s, s1, t, pc');
    GotoStore(s1, t, pc');
    var s' := Goto(s1, t, pc');
    GotoHands(s1, t, pc') by { SameHands(s, s1, t); }
    SameLengths(s, s', t);
    hide HandOk, LengthsOk;
    StepKeeps(s, s', t);
  }

  lemma SameHands(s: State, s1: State, t: Tid)
    requires HandOk(s, t) && s1.place == s.place && s1.m.pc == s.m.pc && s1.batch == s.batch
    ensures HandOk(s1, t)
  {
    forall b: nat, c: nat
      ensures IsHeld(s1, b, t, c) <==> IsHeld(s, b, t, c)
    {
    }
  }

  lemma HeldWriteIsLocal(s: State, t: Tid, c: nat, b: nat, v: nat)
    requires IsHeld(s, b, t, c)
    ensures OwnEffect(s, Written(s, b, v), t)
  {
    forall u: Tid, x: nat, d: nat
      ensures IsHeld(Written(s, b, v), x, u, d) <==> IsHeld(s, x, u, d)
    {
    }
  }

  lemma HeldWriteKeeps(s: State, b: nat, v: nat)
    requires StoreOk(s) && b in s.place && s.place[b].Held?
    ensures StoreOk(Written(s, b, v))
  {
    hide ChainsOk, PlacesOk, CountsOk, KindsOk, Fits;
    WriteChains(s.m.links, s.m.heads, s.lists, s.place, b, v);
  }

  lemma JoinIsLocal(s: State, t: Tid, c: nat, head: nat)
    requires forall b :: b in BatchOf(s, t) ==> IsHeld(s, b, t, c)
    ensures OwnEffect(s, Joined(s, t, c, head), t)
    ensures forall x: nat, d: nat ::
              IsHeld(Joined(s, t, c, head), x, t, d) <==> IsHeld(s, x, t, d) && x !in BatchOf(s, t)
  {
    var s', batch := Joined(s, t, c, head), BatchOf(s, t);
    forall u: Tid, x: nat, d: nat
      ensures IsHeld(s', x, u, d) <==> IsHeld(s, x, u, d) && x !in batch
      ensures u != t && IsHeld(s, x, u, d) ==> x !in batch
    {
      if x in batch {
        assert IsHeld(s, x, t, c);
      }
    }
  }

  lemma SwapKeeps(s: State, t: Tid)
    requires Inv(s) && PcOf(s, t).ToSwap? && Head(s, Global(PcOf(s, t).c)) == PcOf(s, t).cur
    ensures var pc := PcOf(s, t);
            var s' := Goto(Joined(s, t, pc.c, pc.head), t, Idle);
            Inv(s') && Framed(s, s', t)
  {
    hide StoreOk, Segment, Framed, OwnEffect;
    var pc, batch := PcOf(s, t), BatchOf(s, t);
    var c := pc.c;
    assert ThreadOk(s, t);
    forall b | b in batch
      ensures IsHeld(s, b, t, c)
    {
      assert b in HandOf(s, t);
    }
    JoinedKeeps(s, t, c, pc.head, pc.tail);
    JoinIsLocal(s, t, c, pc.head);
    var s1 := Joined(s, t, c, pc.head);
    assert forall d :: List(s1, Local(t, d)) == List(s, Local(t, d));
    hide Joined;
    GotoFrames(s, s1, t, Idle);
    GotoStore(s1, t, Idle);
    var s' := Goto(s1, t, Idle);
    forall x: nat, d: nat
      ensures !IsHeld(s', x, t, d)
    {
      assert IsHeld(s1, x, t, d) <==> IsHeld(s, x, t, d) && x !in batch;
    }
    SameLengths(s, s', t);
    hide LengthsOk;
    StepKeeps(s, s', t);
  }

  // Every step

  lemma StartAllocKeeps(s: State, t: Tid, size: nat)
    requires Inv(s) && Enabled(s, StartAlloc(t, size))
    ensures var s' := After(s, StartAlloc(t, size)); Inv(s') && Framed(s, s', t)
  {
    hide StoreOk, HandOk, LengthsOk, Taken, Linked, Framed, Fits, ClassFor, CacheSize;
    var c := ClassFor(CacheSize(size));
    RequestFits(size);
    StoreChain(s, Local(t, c));
    if Head(s, Local(t, c)) != 0 {
      TakeLocalKeeps(s, t, c, size);
    } else {
      GotoKeeps(s, t, if Head(s, Global(c)) != 0 then Batch(c, size, 0) else Missing(c, size));
    }
  }

  lemma EndedKeeps(s: State, t: Tid)
    requires Inv(s) && (PcOf(s, t).Batch? || PcOf(s, t).ToPop?)
    ensures var pc := PcOf(s, t);
            var s' := Ended(s, t, pc.c, pc.size, pc.moved);
            Inv(s') && Framed(s, s', t)
  {
    hide StoreOk, HandOk, LengthsOk, Taken, Linked, Framed, Fits;
    var pc := PcOf(s, t);
    assert ThreadOk(s, t);
    StoreChain(s, Local(t, pc.c));
    if pc.moved > 0 {
      TakeLocalKeeps(s, t, pc.c, pc.size);
    } else {
      GotoKeeps(s, t, Missing(pc.c, pc.size));
    }
  }

  lemma TriedKeeps(s: State, t: Tid)
    requires Inv(s) && (PcOf(s, t).Batch? || PcOf(s, t).ToPop?) && PcOf(s, t).moved < GLOBAL_FREE_BATCH
    ensures var pc := PcOf(s, t);
            var s' := Tried(s, t, pc.c, pc.size, pc.moved);
            Inv(s') && Framed(s, s', t)
  {
    hide StoreOk, HandOk, LengthsOk, Framed, Fits, Ended;
    var pc := PcOf(s, t);
    assert ThreadOk(s, t);
    if Head(s, Global(pc.c)) == 0 {
      EndedKeeps(s, t);
    } else {
      GotoKeeps(s, t, Read(pc.c, pc.size, pc.moved, Head(s, Global(pc.c))));
    }
  }

  lemma PopKeeps(s: State, e: Step)
    requires Inv(s) && Enabled(s, e) && (e.PopLoad? || e.PopNext? || e.PopSwap?) && !Stale(s.m, e)
    ensures Inv(After(s, e)) && Framed(s, After(s, e), e.t)
  {
    hide StoreOk, HandOk, LengthsOk, Framed, Fits, Ended, Tried, Popped;
    var t, pc := e.t, PcOf(s, e.t);
    assert ThreadOk(s, t);
    match e
    case PopLoad(_) =>
      if pc.moved < GLOBAL_FREE_BATCH {
        TriedKeeps(s, t);
      } else {
        EndedKeeps(s, t);
      }
    case PopNext(_) => GotoKeeps(s, t, ToPop(pc.c, pc.size, pc.moved, pc.cur, Word(s.m, pc.cur)));
    case PopSwap(_, spurious) =>
      if Head(s, Global(pc.c)) == pc.cur && !spurious {
        PoppedStepKeeps(s, t);
      } else {
        TriedKeeps(s, t);
      }
  }

  lemma BatchPutKeeps(s: State, t: Tid)
    requires Inv(s) && Enabled(s, BatchPut(t))
    ensures var s' := After(s, BatchPut(t)); Inv(s') && Framed(s, s', t)
  {
    hide StoreOk, LengthsOk, Framed, Fits;
    var pc := PcOf(s, t);
    assert ThreadOk(s, t);
    assert IsHeld(s, pc.b, t, pc.c);
    PutStepKeeps(s, t, pc.c, pc.b, Batch(pc.c, pc.size, pc.moved + 1));
  }

  /** The class read from a live block is the one it was carved for. */
  lemma FreeReadsClass(s: State, b: nat)
    requires StoreOk(s) && b in s.place && s.place[b] == Live
    ensures b in s.kinds && ClassFor(CacheSize(Word(s.m, b))) == s.kinds[b]
  {
    hide ChainsOk, PlacesOk, CountsOk, KindsOk, CacheSize, SizeToClass;
    ClassIsStable(s.m.links[b]);
  }

  lemma FreeKeeps(s: State, t: Tid, b: nat)
    requires Inv(s) && Enabled(s, StartFree(t, b))
    ensures var s' := After(s, StartFree(t, b)); Inv(s') && Framed(s, s', t)
  {
    hide StoreOk, HandOk, Framed, ClassFor, CacheSize;
    var c := ClassFor(CacheSize(Word(s.m, b)));
    assert ThreadOk(s, t);
    PutKeeps(s, t, c, b) by { PlacedIsNotZero(s, b); }
    PlacedIsNotZero(s, b);
    var count := Num(Put(s, t, c, b).m.counts, Local(t, c));
    assert count <= MAX_FREE_LIST_LENGTH;
    PutStepKeeps(s, t, c, b, if count >= MAX_FREE_LIST_LENGTH then Walking(c, count / 2, b, b, 1) else Idle);
  }

  lemma PlacedIsNotZero(s: State, b: nat)
    requires StoreOk(s) && b in s.place
    ensures b != 0
  {
    hide ChainsOk, CountsOk, KindsOk, HeadersOk;
    ZeroNotPlaced(s.lists, s.place);
  }

  lemma WalkKeeps(s: State, t: Tid)
    requires Inv(s) && Enabled(s, Walk(t))
    ensures var s' := After(s, Walk(t)); Inv(s') && Framed(s, s', t)
  {
    hide StoreOk, HandOk, LengthsOk, Cut, Framed;
    assert ThreadOk(s, t);
    if PcOf(s, t).walked < PcOf(s, t).n {
      WalkStepKeeps(s, t);
    } else {
      CutStepKeeps(s, t);
    }
  }

  lemma PushKeeps(s: State, e: Step)
    requires Inv(s) && Enabled(s, e) && (e.PushLoad? || e.PushLink? || e.PushSwap?)
    ensures Inv(After(s, e)) && Framed(s, After(s, e), e.t)
  {
    hide StoreOk, HandOk, LengthsOk, Segment, Joined, Framed;
    var pc := PcOf(s, e.t);
    assert ThreadOk(s, e.t);
    if e.PushLink? {
      LinkStepKeeps(s, e.t);
    } else if e.PushSwap? && Head(s, Global(pc.c)) == pc.cur && !e.spurious {
      SwapKeeps(s, e.t);
    } else {
      GotoKeeps(s, e.t, ToLink(pc.c, pc.head, pc.tail, Head(s, Global(pc.c))));
    }
  }

  /** Every step of every thread but a stale pop keeps the invariant, and the
      variables, lists and blocks in hand of all other threads. */
  lemma StepKeepsInv(s: State, e: Step)
    requires Inv(s) && Enabled(s, e) && !Stale(s.m, e)
    ensures Inv(After(s, e)) && Framed(s, After(s, e), e.t)
  {
    hide Inv, After, Enabled, Framed, Stale;
    match e
    case StartAlloc(t, size) => StartAllocKeeps(s, t, size);
    case BatchPut(t) => BatchPutKeeps(s, t);
    case Serve(t, page, run) => ServeKeeps(s, t, page, run);
    case StartFree(t, b) => FreeKeeps(s, t, b);
    case Walk(t) => WalkKeeps(s, t);
    case _ =>
      if e.PopLoad? || e.PopNext? || e.PopSwap? {
        PopKeeps(s, e);
      } else {
        PushKeeps(s, e);
      }
  }

  /** After a stale pop the links no longer spell the list. */
  lemma StaleBreaks(s: State, e: Step)
    requires Inv(s) && Enabled(s, e) && Stale(s.m, e)
    ensures var g := Global(PcOf(s, e.t).c);
            !Linked(After(s, e).m.links, Head(After(s, e), g), List(After(s, e), g)) && !Inv(After(s, e))
  {
    hide PlacesOk, CountsOk, KindsOk, HeadersOk, HandOk, LengthsOk, Fits;
    var pc := PcOf(s, e.t);
    var g, s' := Global(pc.c), After(s, e);
    assert ThreadOk(s, e.t);
    StoreChain(s, g);
    LinkedPop(s.m.links, pc.cur, List(s, g));
    assert Head(s', g) == pc.next && List(s', g) == List(s, g)[1..] && s'.m.links == s.m.links;
    if Inv(s') {
      StoreChain(s', g);
    }
  }

  // ------------------------------------------------------------------
  // Runs
  // ------------------------------------------------------------------

  ghost predicate IsRun(states: seq<State>, steps: seq<Step>) {
    && |states| == |steps| + 1
    && states[0] == INITIAL
    && forall i :: 0 <= i < |steps| ==> Enabled(states[i], steps[i]) && Succ(states, i) == After(states[i], steps[i])
  }

  ghost function Succ(states: seq<State>, i: nat): State
    requires i + 1 < |states|
  {
    states[i + 1]
  }

  lemma InitialInv()
    ensures Inv(INITIAL)
  {
  }

  /** None of the first `n` steps is a stale pop. */
  ghost predicate NeverStale(states: seq<State>, steps: seq<Step>, n: nat)
    requires n <= |steps| < |states|
  {
    forall i :: 0 <= i < n ==> !Stale(states[i].m, steps[i])
  }

  lemma {:induction false} RunKeepsInv(states: seq<State>, steps: seq<Step>, i: nat)
    requires IsRun(states, steps) && i <= |steps| && NeverStale(states, steps, i)
    ensures Inv(states[i])
    decreases i
  {
    hide Inv, Enabled, After, Stale;
    if i == 0 {
      InitialInv();
    } else {
      RunKeepsInv(states, steps, i - 1);
      assert Succ(states, i - 1) == After(states[i - 1], steps[i - 1]);
      StepKeepsInv(states[i - 1], steps[i - 1]);
    }
  }

  /** A run keeps the invariant throughout if and only if no pop in it is stale. */
  lemma SoundIffNeverStale(states: seq<State>, steps: seq<Step>)
    requires IsRun(states, steps)
    ensures (forall i :: 0 <= i <= |steps| ==> Inv(states[i])) <==> NeverStale(states, steps, |steps|)
  {
    hide Inv, Enabled, After, Stale;
    if NeverStale(states, steps, |steps|) {
      forall i | 0 <= i <= |steps|
        ensures Inv(states[i])
      {
        RunKeepsInv(states, steps, i);
      }
    } else {
      var i :| 0 <= i < |steps| && Stale(states[i].m, steps[i]);
      if Inv(states[i]) {
        StaleBreaks(states[i], steps[i]);
        assert !Inv(Succ(states, i));
      }
    }
  }

  /** In every interleaving without stale pops the links from each local head run through exactly as
      many blocks as the counter says; the count is below 4096 unless its thread is
      walking that list to flush it, and then 4096; and the walk is always at the
      block it counted to, never at null. */
  lemma CountsAndWalks(states: seq<State>, steps: seq<Step>, i: nat, t: Tid, c: nat)
    requires IsRun(states, steps) && i <= |steps| && NeverStale(states, steps, i)
    ensures var s, k, pc := states[i], Local(t, c), PcOf(states[i], t);
            var n := Num(s.m.counts, k);
            && Linked(s.m.links, Head(s, k), List(s, k)) && n == |List(s, k)|
            && (forall list :: Linked(s.m.links, Head(s, k), list) ==> list == List(s, k))
            && (n < MAX_FREE_LIST_LENGTH || (pc.Walking? && pc.c == c && n == MAX_FREE_LIST_LENGTH))
            && (pc.Walking? && pc.c == c ==>
                  && 1 <= pc.walked <= n / 2 && pc.head == Head(s, k)
                  && pc.tail == List(s, k)[pc.walked - 1] && pc.tail != 0 && pc.tail in s.m.links)
  {
    hide Enabled, After, HandOk, Segment, Linked, ChainsOk, PlacesOk, CountsOk, KindsOk, HeadersOk;
    var s := states[i];
    RunKeepsInv(states, steps, i);
    assert ThreadOk(s, t);
    CountIs(s.m.counts, s.lists, Local(t, c));
    StoreChain(s, Local(t, c));
    forall list | Linked(s.m.links, Head(s, Local(t, c)), list)
      ensures list == List(s, Local(t, c))
    {
      LinkedUnique(s.m.links, Head(s, Local(t, c)), list, List(s, Local(t, c)));
    }
    if PcOf(s, t).Walking? && PcOf(s, t).c == c {
      LinkedWalk(s.m.links, Head(s, Local(t, c)), List(s, Local(t, c)), PcOf(s, t).walked - 1);
    }
  }

  /** In every such interleaving each carved block is in exactly one place, which is
      what the links and its holder say: with the program, its first word then
      giving back its class; once in one local or global list of its class; or in
      the hands of one thread, a flushed batch still linked from head to tail. */
  lemma EachBlockInOnePlace(states: seq<State>, steps: seq<Step>, i: nat)
    requires IsRun(states, steps) && i <= |steps| && NeverStale(states, steps, i)
    ensures var s := states[i];
            && (forall k :: Linked(s.m.links, Head(s, k), List(s, k)))
            && (forall k, b :: b in List(s, k) <==> b in s.place && s.place[b] == In(k))
            && (forall t: Tid, b: nat, c: nat :: IsHeld(s, b, t, c) <==> b in HandOf(s, t) && PcOf(s, t).c == c)
            && (forall t: Tid :: PcOf(s, t).Pushing() ==> BatchOk(s, t, PcOf(s, t).head, PcOf(s, t).tail))
            && KindsOk(s.place, s.kinds)
            && (forall b :: b in s.place && s.place[b] == Live ==>
                  b in s.kinds && ClassFor(CacheSize(Word(s.m, b))) == s.kinds[b])
  {
    hide Inv, Enabled, After, NeverStale, BatchOk, Linked, KindsOk, CacheSize, ClassFor;
    RunKeepsInv(states, steps, i);
    PlacesOf(states[i]);
    HandsOf(states[i]);
  }

  lemma PlacesOf(s: State)
    requires Inv(s)
    ensures forall k :: Linked(s.m.links, Head(s, k), List(s, k))
    ensures forall k, b :: b in List(s, k) <==> b in s.place && s.place[b] == In(k)
    ensures KindsOk(s.place, s.kinds)
    ensures forall b :: b in s.place && s.place[b] == Live ==>
              b in s.kinds && ClassFor(CacheSize(Word(s.m, b))) == s.kinds[b]
  {
    hide CountsOk, KindsOk, HeadersOk, ThreadOk, CacheSize, ClassFor, Linked;
    forall b | b in s.place && s.place[b] == Live
      ensures b in s.kinds && ClassFor(CacheSize(Word(s.m, b))) == s.kinds[b]
    {
      FreeReadsClass(s, b);
    }
  }

  lemma HandsOf(s: State)
    requires Inv(s)
    ensures forall t: Tid, b: nat, c: nat :: IsHeld(s, b, t, c) <==> b in HandOf(s, t) && PcOf(s, t).c == c
    ensures forall t: Tid :: PcOf(s, t).Pushing() ==> BatchOk(s, t, PcOf(s, t).head, PcOf(s, t).tail)
  {
    hide StoreOk, LengthsOk, BatchOk;
    forall t: Tid
      ensures HandOk(s, t) && (PcOf(s, t).Pushing() ==> BatchOk(s, t, PcOf(s, t).head, PcOf(s, t).tail))
    {
      assert ThreadOk(s, t);
    }
  }

  // ------------------------------------------------------------------
  // Conservation
  // ------------------------------------------------------------------

  /** The class a thread is allocating, or freeing, for. */
  ghost function ClassOf(s: State, e: Step): nat {
    match e
    case StartAlloc(_, size) => ClassFor(CacheSize(size))
    case PopLoad(t) => if PcOf(s, t).Batch? then PcOf(s, t).c else 0
    case PopSwap(t, _) => if PcOf(s, t).ToPop? then PcOf(s, t).c else 0
    case Serve(t, _, _) => if PcOf(s, t).Missing? then PcOf(s, t).c else 0
    case _ => 0
  }

  /** The step ends a batch in which blocks were moved. */
  ghost predicate EndsBatch(s: State, e: Step) {
    match e
    case PopLoad(t) =>
      var pc := PcOf(s, t);
      pc.Batch? && pc.moved > 0 && (pc.moved >= GLOBAL_FREE_BATCH || Head(s, Global(pc.c)) == 0)
    case PopSwap(t, spurious) =>
      var pc := PcOf(s, t);
      pc.ToPop? && pc.moved > 0 && Head(s, Global(pc.c)) == 0 && (spurious || pc.cur != 0)
    case _ => false
  }

  /** The block a step hands to the program. */
  ghost function Handed(s: State, e: Step): Option<nat> {
    var c := ClassOf(s, e);
    match e
    case StartAlloc(t, _) => if Head(s, Local(t, c)) != 0 then Some(Head(s, Local(t, c))) else None
    case PopLoad(t) => if EndsBatch(s, e) then Some(Head(s, Local(t, c))) else None
    case PopSwap(t, _) => if EndsBatch(s, e) then Some(Head(s, Local(t, c))) else None
    case Serve(t, page, run) => if BlocksPerPage(c) > 1 && page.Some? then page else run
    case _ => None
  }

  /** The blocks a step carves: a page's worth, a single one, or none. */
  ghost function Carved(s: State, e: Step): set<nat> {
    var c := ClassOf(s, e);
    match e
    case Serve(t, page, run) =>
      if BlocksPerPage(c) > 1 && page.Some? then
        Row(page.value + BlockSize(c), BlockSize(c), BlocksPerPage(c) - 1) + {page.value}
      else if run.Some? then {run.value}
      else {}
    case _ => {}
  }

  /** The ways a block can go in a step of thread `t`: between the program and the
      thread's own lists, and through the thread's hands from a global list to an
      own one or back, within its class. */
  predicate Moves(t: Tid, p: Place, p': Place) {
    match (p, p')
    case (Live, In(Local(u, _))) => u == t
    case (In(Local(u, _)), Live) => u == t
    case (In(Global(c)), Held(u, d)) => u == t && c == d
    case (Held(u, c), In(Local(v, d))) => u == t && v == t && c == d
    case (In(Local(u, c)), Held(v, d)) => u == t && v == t && c == d
    case (Held(u, c), In(Global(d))) => u == t && c == d
    case _ => false
  }

  /** A global list is left alone, loses its first block to the hand of `t`, or
      has the batch of `t` in front. */
  ghost predicate GlobalMoves(s: State, t: Tid, s': State, c: nat) {
    var list, list' := List(s, Global(c)), List(s', Global(c));
    || list' == list
    || (list != [] && list' == list[1..] && HandOf(s', t) == [list[0]] && PcOf(s, t).ToPop? && PcOf(s, t).c == c)
    || (list' == HandOf(s, t) + list && HandOf(s', t) == [])
  }

  /** What a step may do to the blocks: those it carves are new; one it hands out
      was idle or new and is of the class asked for; one it is given to free is
      idle after; no other block comes to or leaves the program; every other block
      stays where it was or moves by the thread's hands; and none changes its
      class. */
  ghost predicate Conserves(s: State, e: Step, s': State) {
    && s'.place.Keys == s.place.Keys + Carved(s, e)
    && (match Handed(s, e)
        case Some(b) => b in s'.place && s'.place[b] == Live && b in s'.kinds && s'.kinds[b] == ClassOf(s, e)
                        && (b in s.place ==> s.place[b] == In(Local(e.t, ClassOf(s, e))))
        case None => true)
    && (e.StartFree? ==> e.b in s'.place && s'.place[e.b].In?)
    && (forall x :: x in s.place && Some(x) != Handed(s, e) && !(e.StartFree? && x == e.b) ==>
          x in s'.place && (s'.place[x].Live? <==> s.place[x].Live?))
    && (forall x :: x in s.place && x in s'.place && s'.place[x] != s.place[x] ==> Moves(e.t, s.place[x], s'.place[x]))
    && (forall c :: GlobalMoves(s, e.t, s', c))
    && (forall x :: x in s.kinds ==> x in s'.kinds && s'.kinds[x] == s.kinds[x])
  }

  lemma TakeConserves(s: State, t: Tid, c: nat, size: nat, e: Step)
    requires StoreOk(s) && Head(s, Local(t, c)) != 0 && e.t == t && ClassOf(s, e) == c && Carved(s, e) == {}
             && !e.StartFree? && Fits(c, size)
    requires Handed(s, e) == Some(Head(s, Local(t, c)))
    ensures Conserves(s, e, Goto(Taken(s, t, c, size), t, Idle))
  {
    hide StoreOk, Handed, Carved, ClassOf, Fits;
    TakenKeeps(s, t, c, size);
    hide Taken;
  }

  lemma EndedConserves(s: State, e: Step)
    requires Inv(s) && ((e.PopLoad? && PcOf(s, e.t).Batch?) || (e.PopSwap? && PcOf(s, e.t).ToPop?))
    requires PcOf(s, e.t).moved > 0 <==> EndsBatch(s, e)
    ensures var pc := PcOf(s, e.t); Conserves(s, e, Ended(s, e.t, pc.c, pc.size, pc.moved))
  {
    hide StoreOk, HandOk, LengthsOk, Linked, Fits, Conserves, EndsBatch, Taken;
    var t, pc := e.t, PcOf(s, e.t);
    assert ThreadOk(s, t);
    StoreChain(s, Local(t, pc.c));
    if pc.moved > 0 {
      TakeConserves(s, t, pc.c, pc.size, e);
    } else {
      NothingConserves(s, e, Missing(pc.c, pc.size));
    }
  }

  lemma PopConserves(s: State, e: Step)
    requires Inv(s) && Enabled(s, e) && (e.PopLoad? || e.PopNext? || e.PopSwap?) && !Stale(s.m, e)
    ensures Conserves(s, e, After(s, e))
  {
    hide StoreOk, HandOk, LengthsOk, Linked, Fits, Conserves, Ended, Popped;
    var t, pc := e.t, PcOf(s, e.t);
    assert ThreadOk(s, t);
    if e.PopNext? {
      NothingConserves(s, e, ToPop(pc.c, pc.size, pc.moved, pc.cur, Word(s.m, pc.cur)));
    } else if e.PopSwap? && Head(s, Global(pc.c)) == pc.cur && !e.spurious {
      PoppedConserves(s, t, pc.c, pc.next);
    } else if Head(s, Global(pc.c)) == 0 || pc.moved == GLOBAL_FREE_BATCH {
      EndedConserves(s, e);
    } else {
      NothingConserves(s, e, Read(pc.c, pc.size, pc.moved, Head(s, Global(pc.c))));
    }
  }

  lemma PoppedConserves(s: State, t: Tid, c: nat, next: nat)
    requires StoreOk(s) && Head(s, Global(c)) != 0 && next == Word(s.m, Head(s, Global(c)))
    requires PcOf(s, t).ToPop? && PcOf(s, t).c == c && PcOf(s, t).cur == Head(s, Global(c))
    ensures var pc := PcOf(s, t);
            Conserves(s, PopSwap(t, false), Goto(Popped(s, t, c, next), t, Holding(c, pc.size, pc.moved, pc.cur)))
  {
    hide StoreOk;
    PoppedKeeps(s, t, c, next);
    hide Popped;
  }

  lemma BatchPutConserves(s: State, t: Tid)
    requires Inv(s) && PcOf(s, t).Holding?
    ensures Conserves(s, BatchPut(t), After(s, BatchPut(t)))
  {
    hide ChainsOk, PlacesOk, CountsOk, LengthsOk, HeadersOk, Fits;
    var pc := PcOf(s, t);
    assert ThreadOk(s, t);
    assert IsHeld(s, pc.b, t, pc.c);
  }

  lemma WalkConserves(s: State, t: Tid)
    requires Inv(s) && PcOf(s, t).Walking?
    ensures Conserves(s, Walk(t), After(s, Walk(t)))
  {
    hide StoreOk, HandOk, LengthsOk, Conserves, Cut;
    var pc := PcOf(s, t);
    assert ThreadOk(s, t);
    if pc.walked == pc.n {
      CutConserves(s, t, pc.c, pc.n, pc.tail, ToLoad(pc.c, pc.head, pc.tail));
    } else {
      NothingConserves(s, Walk(t), Walking(pc.c, pc.n, pc.head, Word(s.m, pc.tail), pc.walked + 1));
    }
  }

  lemma CutConserves(s: State, t: Tid, c: nat, n: nat, tail: nat, pc: Pc)
    requires StoreOk(s) && 0 < n <= |List(s, Local(t, c))| && tail == List(s, Local(t, c))[n - 1]
    ensures Conserves(s, Walk(t), Goto(Cut(s, t, c, n, tail), t, pc))
  {
    hide StoreOk, Segment, HandOf;
    var list := List(s, Local(t, c));
    CutKeeps(s, t, c, n, tail);
    hide Cut;
    forall x | x in list[..n]
      ensures x in s.place && s.place[x] == In(Local(t, c))
    {
      Listed(s, t, c, x);
    }
  }

  lemma SwapConserves(s: State, t: Tid, spurious: bool)
    requires Inv(s) && PcOf(s, t).ToSwap?
    ensures Conserves(s, PushSwap(t, spurious), After(s, PushSwap(t, spurious)))
  {
    hide StoreOk, LengthsOk, Segment, Conserves, Joined;
    var e, pc := PushSwap(t, spurious), PcOf(s, t);
    assert ThreadOk(s, t);
    if Head(s, Global(pc.c)) == pc.cur && !spurious {
      JoinConserves(s, t, e, pc.c);
    } else {
      NothingConserves(s, e, ToLink(pc.c, pc.head, pc.tail, Head(s, Global(pc.c))));
    }
  }

  lemma JoinConserves(s: State, t: Tid, e: Step, c: nat)
    requires HandOk(s, t) && PcOf(s, t).ToSwap? && PcOf(s, t).c == c && e.PushSwap? && e.t == t
    ensures Conserves(s, e, Goto(Joined(s, t, c, PcOf(s, t).head), t, Idle))
  {
    forall b | b in BatchOf(s, t)
      ensures IsHeld(s, b, t, c)
    {
      assert b in HandOf(s, t);
    }
  }

  lemma ServeConserves(s: State, t: Tid, page: Option<nat>, run: Option<nat>)
    requires Inv(s) && Enabled(s, Serve(t, page, run))
    ensures Conserves(s, Serve(t, page, run), After(s, Serve(t, page, run)))
  {
    hide StoreOk, HandOk, LengthsOk, Filled, Row, BlockSize, BlocksPerPage, Grown, Born, Conserves;
    var e, c, size := Serve(t, page, run), PcOf(s, t).c, PcOf(s, t).size;
    assert ThreadOk(s, t);
    StoreKinds(s);
    if BlocksPerPage(c) > 1 && page.Some? {
      var n, base := BlocksPerPage(c) - 1, page.value;
      var s1, more := Filled(s, t, c, base, n), Row(base + BlockSize(c), BlockSize(c), n);
      FilledKeeps(s, t, c, base, n);
      PageIsShort(c);
      BaseIsNew(s, s1, t, c, base, n);
      GrownPlaces(s, s1, t, c, n, more);
      FilledKinds(s, t, c, base, n);
      BornConserves(s, s1, e, c, base, size, more);
    } else if run.Some? {
      BornConserves(s, s, e, c, run.value, size, {});
    } else {
      NothingConserves(s, e, Idle);
    }
  }

  /** A step that carves `more` and hands out the new block `b`. */
  lemma BornConserves(s: State, s1: State, e: Step, c: nat, b: nat, size: nat, more: set<nat>)
    requires Handed(s, e) == Some(b) && Carved(s, e) == more + {b} && ClassOf(s, e) == c && !e.StartFree?
    requires b !in s1.place && s1.place.Keys == s.place.Keys + more && s.kinds.Keys == s.place.Keys
    requires forall x :: x in s.place ==> s1.place[x] == s.place[x]
    requires forall x :: x in s.kinds ==> x in s1.kinds && s1.kinds[x] == s.kinds[x]
    requires forall d :: List(s1, Global(d)) == List(s, Global(d))
    ensures Conserves(s, e, Goto(Born(s1, c, b, size), e.t, Idle))
  {
    hide Handed, Carved, ClassOf, HandOf;
  }

  /** A step that moves no block. */
  lemma NothingConserves(s: State, e: Step, pc: Pc)
    requires Handed(s, e) == None && Carved(s, e) == {} && !e.StartFree?
    ensures Conserves(s, e, Goto(s, e.t, pc))
  {
    hide Handed, Carved, ClassOf, HandOf;
  }

  lemma StoreKinds(s: State)
    requires StoreOk(s)
    ensures s.place.Keys == s.kinds.Keys
  {
    hide ChainsOk, PlacesOk, CountsOk, HeadersOk;
  }

  lemma GrownPlaces(s: State, s': State, t: Tid, c: nat, n: nat, more: set<nat>)
    requires Grown(s, s', t, c, n, more)
    ensures s'.place.Keys == s.place.Keys + more && forall x :: x in s.place ==> s'.place[x] == s.place[x]
    ensures forall d :: List(s', Global(d)) == List(s, Global(d))
  {
  }

  lemma {:induction false} FilledKinds(s: State, t: Tid, c: nat, base: nat, n: nat)
    requires StoreOk(s) && c < NUM_CLASSES && base > 0 && n < BlocksPerPage(c) && PlacesApart(s.place, base)
    ensures forall x :: x in s.kinds ==>
            x in Filled(s, t, c, base, n).kinds && Filled(s, t, c, base, n).kinds[x] == s.kinds[x]
    decreases n
  {
    hide StoreOk, BlocksPerPage, BlockSize, PlacesApart;
    if n > 0 {
      FilledKinds(s, t, c, base, n - 1);
      PageFits(c);
      RowNext(s.place, base, BlockSize(c), n, BlocksPerPage(c));
      StoreKinds(s);
    }
  }

  lemma FreeConserves(s: State, t: Tid, b: nat)
    requires Inv(s) && Enabled(s, StartFree(t, b))
    ensures Conserves(s, StartFree(t, b), After(s, StartFree(t, b)))
  {
    hide StoreOk, HandOk, LengthsOk, ClassFor, CacheSize;
    FreeReadsClass(s, b);
  }

  lemma StartConserves(s: State, t: Tid, size: nat)
    requires Inv(s) && Enabled(s, StartAlloc(t, size))
    ensures Conserves(s, StartAlloc(t, size), After(s, StartAlloc(t, size)))
  {
    hide StoreOk, HandOk, LengthsOk, ClassFor, CacheSize, Fits;
    var c := ClassFor(CacheSize(size));
    RequestFits(size);
    if Head(s, Local(t, c)) != 0 {
      TakeConserves(s, t, c, size, StartAlloc(t, size));
      hide Taken;
    }
  }

  /** Refill, batch, put, flush and push conserve the blocks exactly, step by
      step, in every interleaving without stale pops; what other threads have stays
      with them. */
  lemma EveryStepConserves(states: seq<State>, steps: seq<Step>, i: nat)
    requires IsRun(states, steps) && i < |steps| && NeverStale(states, steps, i + 1)
    ensures Conserves(states[i], steps[i], Succ(states, i)) && Framed(states[i], Succ(states, i), steps[i].t)
  {
    hide Inv, After, Conserves, Enabled, Framed, Stale;
    var s, e := states[i], steps[i];
    RunKeepsInv(states, steps, i);
    assert Succ(states, i) == After(s, e);
    StepConserves(s, e);
    StepKeepsInv(s, e);
  }

  lemma StepConserves(s: State, e: Step)
    requires Inv(s) && Enabled(s, e) && !Stale(s.m, e)
    ensures Conserves(s, e, After(s, e))
  {
    hide Inv, After, Conserves, Stale;
    match e
    case StartAlloc(t, size) => StartConserves(s, t, size);
    case BatchPut(t) => BatchPutConserves(s, t);
    case Serve(t, page, run) => ServeConserves(s, t, page, run);
    case StartFree(t, b) => FreeConserves(s, t, b);
    case Walk(t) => WalkConserves(s, t);
    case PushSwap(t, spurious) => SwapConserves(s, t, spurious);
    case _ =>
      if e.PopLoad? || e.PopNext? || e.PopSwap? {
        PopConserves(s, e);
      } else {
        PushConserves(s, e);
      }
  }

  lemma PushConserves(s: State, e: Step)
    requires Enabled(s, e) && (e.PushLoad? || e.PushLink?)
    ensures Conserves(s, e, After(s, e))
  {
  }

  // ------------------------------------------------------------------
  // Pops that do not overlap
  // ------------------------------------------------------------------

  /** No two pops of one class overlap. */
  ghost predicate PopsApart(s: State) {
    forall t: Tid, u: Tid ::
      PcOf(s, t).Popping() && PcOf(s, u).Popping() && PcOf(s, t).c == PcOf(s, u).c ==> t == u
  }

  /** What a popper read is still so. */
  ghost predicate Reliable(s: State, t: Tid) {
    var pc := PcOf(s, t);
    pc.Popping() ==> pc.cur in List(s, Global(pc.c)) && (pc.ToPop? ==> pc.next == Word(s.m, pc.cur))
  }

  lemma ReliableIsNotStale(s: State, e: Step)
    requires Reliable(s, e.t)
    ensures !Stale(s.m, e)
  {
  }

  /** A block that stays in a list keeps its successor. */
  lemma SameSuccessor(links: Links, head: nat, list: seq<nat>, links': Links, head': nat, list': seq<nat>,
      front: seq<nat>, b: nat)
    requires Linked(links, head, list) && Linked(links', head', list') && list' == front + list && b in list
    ensures b in list' && b in links && b in links' && links'[b] == links[b]
  {
    var i :| 0 <= i < |list| && list[i] == b;
    assert list'[|front| + i] == b;
    LinkedAt(links, head, list, i);
    LinkedAt(links', head', list', |front| + i);
  }

  lemma OthersReliable(s: State, e: Step, s': State, u: Tid)
    requires Inv(s) && Inv(s') && PopsApart(s) && Reliable(s, u) && u != e.t
    requires Framed(s, s', e.t) && (forall c :: GlobalMoves(s, e.t, s', c))
    ensures Reliable(s', u)
  {
    hide StoreOk, ThreadOk, Linked;
    var pc := PcOf(s, u);
    assert PcOf(s', u) == pc;
    if pc.Popping() {
      var g := Global(pc.c);
      StoreChain(s, g);
      StoreChain(s', g);
      assert GlobalMoves(s, e.t, s', pc.c);
      var front := if List(s', g) == List(s, g) then [] else HandOf(s, e.t);
      assert List(s', g) == front + List(s, g);
      SameSuccessor(s.m.links, Head(s, g), List(s, g), s'.m.links, Head(s', g), List(s', g), front, pc.cur);
    }
  }

  lemma OwnReliable(s: State, e: Step)
    requires Inv(s) && Enabled(s, e) && Reliable(s, e.t)
    ensures Reliable(After(s, e), e.t)
  {
    hide StoreOk, HandOk, LengthsOk, Linked, Fits, Filled, Taken, Put, Cut, Joined, Born, Written, Popped, PlacesApart;
    if e.PopLoad? || e.PopNext? || e.PopSwap? {
      assert ThreadOk(s, e.t);
      HeadIsFirst(s, Global(PcOf(s, e.t).c));
    } else {
      NotPopping(s, e);
    }
  }

  lemma NotPopping(s: State, e: Step)
    requires Enabled(s, e) && !(e.PopLoad? || e.PopNext? || e.PopSwap?)
    ensures !PcOf(After(s, e), e.t).Popping()
  {
    hide Filled, Taken, Put, Cut, Joined, Born, Written, PlacesApart, ClassFor, CacheSize, BlocksPerPage, Num;
  }

  lemma HeadIsFirst(s: State, k: Key)
    requires StoreOk(s)
    ensures Head(s, k) != 0 ==> Head(s, k) in List(s, k)
  {
    hide Linked, PlacesOk, CountsOk, KindsOk, HeadersOk;
    ChainAt(s.m.links, s.m.heads, s.lists, k);
    if Head(s, k) != 0 {
      LinkedPop(s.m.links, Head(s, k), List(s, k));
    }
  }

  lemma {:induction false} ApartIsReliable(states: seq<State>, steps: seq<Step>, i: nat)
    requires IsRun(states, steps) && i <= |steps| && forall j :: 0 <= j <= |steps| ==> PopsApart(states[j])
    ensures NeverStale(states, steps, i) && Inv(states[i]) && forall t: Tid :: Reliable(states[i], t)
    decreases i
  {
    hide Inv, Enabled, After, Stale, Reliable, PopsApart, Conserves, Framed;
    if i == 0 {
      InitialInv();
      InitialReliable();
    } else {
      ApartIsReliable(states, steps, i - 1);
      var s, e := states[i - 1], steps[i - 1];
      assert Succ(states, i - 1) == After(s, e);
      ReliableIsNotStale(s, e);
      StepKeepsInv(s, e);
      StepKeepsReliable(s, e);
    }
  }

  lemma StepKeepsReliable(s: State, e: Step)
    requires Inv(s) && Enabled(s, e) && !Stale(s.m, e) && PopsApart(s) && forall t: Tid :: Reliable(s, t)
    ensures forall t: Tid :: Reliable(After(s, e), t)
  {
    hide Inv, Enabled, After, Stale, Reliable, PopsApart, Conserves, Framed;
    StepKeepsInv(s, e);
    StepConserves(s, e);
    MovesOf(s, e, After(s, e));
    forall u: Tid
      ensures Reliable(After(s, e), u)
    {
      if u == e.t {
        OwnReliable(s, e);
      } else {
        OthersReliable(s, e, After(s, e), u);
      }
    }
  }

  lemma MovesOf(s: State, e: Step, s': State)
    requires Conserves(s, e, s')
    ensures forall c :: GlobalMoves(s, e.t, s', c)
  {
    hide GlobalMoves;
  }

  lemma InitialReliable()
    ensures forall t: Tid :: Reliable(INITIAL, t)
  {
  }

  /** A run in which no two pops of one class overlap has no stale pop, however
      pops overlap with pushes and with pops of other classes. */
  lemma ApartNeverStale(states: seq<State>, steps: seq<Step>)
    requires IsRun(states, steps) && forall j :: 0 <= j <= |steps| ==> PopsApart(states[j])
    ensures NeverStale(states, steps, |steps|)
  {
    hide IsRun, PopsApart, Reliable, Inv, NeverStale;
    ApartIsReliable(states, steps, |steps|);
  }

  // ------------------------------------------------------------------
  // When `alloc` gives up, and that no operation gets stuck
  // ------------------------------------------------------------------

  /** The thread is inside `alloc`, or the step brings it there. */
  predicate Allocates(s: State, e: Step) {
    var pc := PcOf(s, e.t);
    e.StartAlloc? || pc.Batch? || pc.Read? || pc.ToPop? || pc.Holding? || pc.Missing?
  }

  lemma StepMisses(s: State, e: Step)
    requires Inv(s) && Enabled(s, e) && !PcOf(s, e.t).Missing? && PcOf(After(s, e), e.t).Missing?
    ensures var c := PcOf(After(s, e), e.t).c; List(s, Local(e.t, c)) == [] && List(s, Global(c)) == []
  {
    hide Inv, ListAt, Num, After, Enabled;
    MissComesFrom(s, e);
    var c := PcOf(After(s, e), e.t).c;
    EmptyHeads(s, Local(e.t, c));
    EmptyHeads(s, Global(c));
    if !e.StartAlloc? {
      NothingMoved(s, e.t);
    }
  }

  lemma EmptyHeads(s: State, k: Key)
    requires Inv(s)
    ensures Head(s, k) == 0 ==> List(s, k) == []
  {
    hide StoreOk, ThreadOk, Linked;
    StoreChain(s, k);
  }

  lemma NothingMoved(s: State, t: Tid)
    requires Inv(s) && (PcOf(s, t).Batch? || PcOf(s, t).ToPop?) && PcOf(s, t).moved == 0
    ensures List(s, Local(t, PcOf(s, t).c)) == []
  {
    hide StoreOk, HandOk, LengthsOk, Fits;
    assert ThreadOk(s, t);
  }

  /** A miss is decided by an empty global head, of a thread with nothing of its own. */
  lemma MissComesFrom(s: State, e: Step)
    requires Enabled(s, e) && !PcOf(s, e.t).Missing? && PcOf(After(s, e), e.t).Missing?
    ensures var pc, c := PcOf(s, e.t), PcOf(After(s, e), e.t).c;
            && Head(s, Global(c)) == 0
            && (if e.StartAlloc? then Head(s, Local(e.t, c)) == 0
                else (pc.Batch? || pc.ToPop?) && pc.moved == 0 && pc.c == c)
  {
    hide Enabled, After, ClassFor, CacheSize, Num, FillPage, TakeFirst, PutFirst, CutAt, BlocksPerPage;
    BooksAreAuxiliary(s, e);
    NextMisses(s.m, e);
  }

  lemma NextMisses(m: Machine, e: Step)
    requires !PcAt(m, e.t).Missing? && PcAt(Next(m, e), e.t).Missing?
    ensures var pc, c := PcAt(m, e.t), PcAt(Next(m, e), e.t).c;
            && HeadAt(m, Global(c)) == 0
            && (if e.StartAlloc? then HeadAt(m, Local(e.t, c)) == 0
                else (pc.Batch? || pc.ToPop?) && pc.moved == 0 && pc.c == c)
  {
    hide ClassFor, CacheSize, Num, FillPage, TakeFirst, PutFirst, CutAt, BlocksPerPage, Word;
  }

  /** In every such run a thread turns to the page source only when its own list and
      the global list of the class are empty. */
  lemma MissOnlyWhenEmpty(states: seq<State>, steps: seq<Step>, i: nat, t: Tid)
    requires IsRun(states, steps) && i < |steps| && NeverStale(states, steps, i + 1)
    requires !PcOf(states[i], t).Missing? && PcOf(Succ(states, i), t).Missing?
    ensures var c := PcOf(Succ(states, i), t).c;
            List(states[i], Local(t, c)) == [] && List(states[i], Global(c)) == [] && steps[i].t == t
  {
    hide Inv, Enabled, After, Stale, ListAt;
    var s, e := states[i], steps[i];
    RunKeepsInv(states, steps, i);
    assert Succ(states, i) == After(s, e);
    StepKeepsInv(s, e);
    StepMisses(s, e);
  }

  /** `alloc` ends exactly with a block for the caller, or with null when neither a
      page nor a run came. */
  lemma AllocEnds(s: State, e: Step)
    requires Inv(s) && Enabled(s, e) && Allocates(s, e)
    ensures PcOf(After(s, e), e.t).Idle? <==>
              || Handed(s, e).Some?
              || (e.Serve? && e.run == None && (e.page == None || BlocksPerPage(PcOf(s, e.t).c) <= 1))
  {
    hide StoreOk, HandOk, LengthsOk, Linked, Fits, Filled, Taken, Put, Cut, Joined, Born, Written, Popped, PlacesApart;
    hide ClassFor, CacheSize, BlocksPerPage;
    assert ThreadOk(s, e.t);
  }

  /** How far a thread is from the end of its call. */
  function Ahead(pc: Pc): nat {
    match pc
    case Idle => 0
    case Batch(_, _, moved) => 5 * Less(GLOBAL_FREE_BATCH, moved) + 5
    case Read(_, _, moved, _) => 5 * Less(GLOBAL_FREE_BATCH, moved) + 4
    case ToPop(_, _, moved, _, _) => 5 * Less(GLOBAL_FREE_BATCH, moved) + 3
    case Holding(_, _, moved, _) => 5 * Less(GLOBAL_FREE_BATCH, moved) + 2
    case Missing(_, _) => 1
    case Walking(_, n, _, _, walked) => Less(n, walked) + 5
    case ToLoad(_, _, _) => 4
    case ToLink(_, _, _, _) => 3
    case ToSwap(_, _, _, _) => 2
  }

  /** The step is a compare-and-swap that fails, for no reason or because another
      thread has changed the head it saw. */
  predicate FailsToSwap(s: State, e: Step) {
    match e
    case PopSwap(t, spurious) => PcOf(s, t).ToPop? && (spurious || Head(s, Global(PcOf(s, t).c)) != PcOf(s, t).cur)
    case PushSwap(t, spurious) => PcOf(s, t).ToSwap? && (spurious || Head(s, Global(PcOf(s, t).c)) != PcOf(s, t).cur)
    case _ => false
  }

  /** No call gets stuck: every step brings it nearer to its end, except a
      compare-and-swap that fails. */
  lemma EveryStepAdvances(s: State, e: Step)
    requires Inv(s) && Enabled(s, e) && !e.StartAlloc? && !e.StartFree? && !FailsToSwap(s, e)
    ensures Ahead(PcOf(After(s, e), e.t)) < Ahead(PcOf(s, e.t))
  {
    hide StoreOk, HandOk, LengthsOk, Linked, Fits, Filled, Taken, Put, Cut, Joined, Born, Written, Popped, PlacesApart;
    hide BlocksPerPage;
    assert ThreadOk(s, e.t);
  }
}
