/** The magazine-caching allocator as a transition system.

    Any number of threads run `alloc` and `dealloc` of the default build.  Every
    load, link write, next-read and compare-and-swap of the global full and empty
    stacks is a step of its own; thread-local work is split into small steps too.
    Absent map entries read as null or empty, so every thread exists from the
    start, idle and with empty magazines.
 */
module MagazineMachine {
  import opened Common
  import opened BlockLayout

  type Tid = nat
  type Ptr = nat
  const NULL: Ptr := 0

  /** Every place a carved block can be in: with the program, in a thread's
      alloc or free magazine, in a node's magazine, in the hands of a thread that
      is freeing it, passed over by `bulk_init`, or dropped for want of a node. */
  datatype Place =
    | Live
    | InAlloc(t: Tid, c: nat)
    | InFree(t: Tid, c: nat)
    | InNode(n: Ptr)
    | InHand(t: Tid, c: nat)
    | HadNoRoom(c: nat)
    | Leaked

  /** What each place holds, in order; absent places are empty. */
  type Boxes = map<Place, seq<nat>>

  function At(box: Boxes, l: Place): seq<nat> { if l in box then box[l] else [] }

  /** Null-initialised words: node links and stack heads. */
  function Link(m: map<nat, Ptr>, k: nat): Ptr { if k in m then m[k] else NULL }

  /** Move the i-th block of `from` to the end of `to`. */
  function Shift(box: Boxes, from: Place, i: nat, to: Place): Boxes
    requires i < |At(box, from)|
  {
    var x := At(box, from);
    var box1 := box[from := x[..i] + x[i + 1..]];
    box1[to := At(box1, to) + [x[i]]]
  }

  /** Overwrite `to` with the contents of `from` and clear `from`. */
  function Pour(box: Boxes, from: Place, to: Place): Boxes {
    box[to := At(box, from)][from := []]
  }

  /** Where a thread stands, with its local variables; a block being freed is in
      the box `InHand`. */
  datatype Pc =
    | Idle
      // alloc
    | TryLocal(c: nat)
    | TakeSwapped(c: nat)
    | PopLoad(c: nat)
    | PopNext(c: nat, cur: Ptr)
    | PopCas(c: nat, cur: Ptr, nxt: Ptr)
    | Exchange(c: nat, node: Ptr)
    | EmptyLoad(c: nat, node: Ptr)
    | EmptyLink(c: nat, node: Ptr, cur: Ptr)
    | EmptyCas(c: nat, node: Ptr, cur: Ptr)
    | TakePopped(c: nat)
    | Miss(c: nat)
      // dealloc
    | TryPut(c: nat)
    | NeedNode(c: nat)
    | Fill(c: nat, node: Ptr)
    | FullLoad(c: nat, node: Ptr)
    | FullLink(c: nat, node: Ptr, cur: Ptr)
    | FullCas(c: nat, node: Ptr, cur: Ptr)
    | PutLocal(c: nat)
  {
    /** The thread is in the middle of freeing a block. */
    predicate Freeing() { TryPut? || NeedNode? || HoldsNew() || PutLocal? }

    /** The thread owns a node it has not yet published on the full stack. */
    predicate HoldsNew() { Fill? || FullLoad? || FullLink? || FullCas? }

    /** The thread owns a node it popped from the full stack. */
    predicate HoldsPopped() { Exchange? || EmptyLoad? || EmptyLink? || EmptyCas? }
  }

  /** Memory and page bookkeeping.  `carved` records the class of every block
      ever cut from a page, `bulkPages` counts the pages cut into many blocks. */
  datatype State = State(
    pc: map<Tid, Pc>,
    box: Boxes,
    fullHead: map<nat, Ptr>,
    emptyHead: map<nat, Ptr>,
    next: map<Ptr, Ptr>,
    nodes: set<Ptr>,
    carved: map<nat, nat>,
    bulkPages: map<nat, nat>,
    pages: set<nat>,
    large: map<nat, nat>)

  const INITIAL := State(map[], map[], map[], map[], map[], {}, map[], map[], {}, map[])

  function PcOf(s: State, t: Tid): Pc { if t in s.pc then s.pc[t] else Idle }
  function AllocMag(s: State, t: Tid, c: nat): seq<nat> { At(s.box, InAlloc(t, c)) }
  function FreeMag(s: State, t: Tid, c: nat): seq<nat> { At(s.box, InFree(t, c)) }
  function BulkPages(s: State, c: nat): nat { if c in s.bulkPages then s.bulkPages[c] else 0 }
  function NodeMag(s: State, n: Ptr): seq<nat> { At(s.box, InNode(n)) }
  function LiveBlocks(s: State): seq<nat> { At(s.box, Live) }
  function FullHead(s: State, c: nat): Ptr { Link(s.fullHead, c) }
  function EmptyHead(s: State, c: nat): Ptr { Link(s.emptyHead, c) }
  function Next(s: State, n: Ptr): Ptr { Link(s.next, n) }

  // ------------------------------------------------------------------
  // Steps
  // ------------------------------------------------------------------

  /** What the environment decides in a step: whether a weak compare-and-swap
      fails spuriously, which fresh node or page is handed out. */
  datatype Choice =
    | Proceed | Spurious
    | FreshNode(node: Ptr) | NoNode
    | BulkPage(base: nat) | SingleRun(base: nat) | NoPage

  /** `Free` names the block by its position among the live ones. */
  datatype Step =
    | Malloc(t: Tid, c: nat)
    | Free(t: Tid, i: nat)
    | Go(t: Tid, choice: Choice)
    | MapLarge(base: nat, count: nat)
    | UnmapLarge(base: nat)

  predicate InRun(p: nat, base: nat, count: nat) {
    base / PAGE_SIZE <= p < base / PAGE_SIZE + count
  }

  function PageRun(base: nat, count: nat): set<nat> {
    set p: nat | p < base / PAGE_SIZE + count && InRun(p, base, count)
  }

  /** The page source returns page-aligned, unmapped pages. */
  predicate FreshRun(s: State, base: nat, count: nat) {
    base > 0 && base % PAGE_SIZE == 0 && PageRun(base, count) !! s.pages
  }

  predicate Enabled(s: State, step: Step) {
    match step
    case Malloc(t, c) => PcOf(s, t).Idle? && c < NUM_CLASSES
    case Free(t, i) => PcOf(s, t).Idle? && i < |LiveBlocks(s)| && LiveBlocks(s)[i] in s.carved
    case Go(t, choice) => GoEnabled(s, t, choice)
    case MapLarge(base, count) => count >= 1 && FreshRun(s, base, count)
    case UnmapLarge(base) => base in s.large
  }

  predicate GoEnabled(s: State, t: Tid, choice: Choice) {
    match PcOf(s, t)
    case Idle => false
    case PopCas(_, _, _) => choice.Proceed? || choice.Spurious?
    case EmptyCas(_, _, _) => choice.Proceed? || choice.Spurious?
    case FullCas(_, _, _) => choice.Proceed? || choice.Spurious?
    case NeedNode(c) =>
      choice.NoNode? || (choice.FreshNode? && choice.node != NULL && choice.node !in s.nodes)
    case Miss(c) =>
      || choice.NoPage?
      || (choice.BulkPage? && BlocksPerPage(c) > 1 && FreshRun(s, choice.base, 1))
      || (choice.SingleRun? && FreshRun(s, choice.base, PagesForBlock(c)))
    case _ => choice.Proceed?
  }

  function Goto(s: State, t: Tid, pc: Pc): State {
    s.(pc := s.pc[t := pc])
  }

  /** Moving a thread's program counter changes nothing else. */
  lemma GotoFacts(s: State, t: Tid)
    ensures forall pc :: Goto(s, t, pc) == s.(pc := Goto(s, t, pc).pc)
    ensures forall pc :: PcOf(Goto(s, t, pc), t) == pc
    ensures forall pc, u :: u != t ==> PcOf(Goto(s, t, pc), u) == PcOf(s, u)
  {
  }

  function Apply(s: State, step: Step): State
    requires Enabled(s, step)
  {
    match step
    case Malloc(t, c) => Goto(s, t, TryLocal(c))
    case Free(t, i) => FreeStep(s, t, i)
    case Go(t, choice) => GoStep(s, t, choice)
    case MapLarge(base, count) => s.(pages := s.pages + PageRun(base, count), large := s.large[base := count])
    case UnmapLarge(base) => s.(pages := s.pages - PageRun(base, s.large[base]), large := s.large - {base})
  }

  /** `dealloc` reads the class from the block's header and takes the block in hand. */
  function FreeStep(s: State, t: Tid, i: nat): State
    requires i < |LiveBlocks(s)| && LiveBlocks(s)[i] in s.carved
  {
    InHandStep(s, t, i, s.carved[LiveBlocks(s)[i]])
  }

  function InHandStep(s: State, t: Tid, i: nat, c: nat): State
    requires i < |LiveBlocks(s)|
  {
    Goto(s, t, TryPut(c)).(box := Shift(s.box, Live, i, InHand(t, c)))
  }

  /** `Magazine::pop` from the alloc magazine, returning the block to the
      program; an empty magazine sends the thread to `otherwise`. */
  function TakeStep(s: State, t: Tid, c: nat, otherwise: Pc): State {
    var n := |AllocMag(s, t, c)|;
    if n == 0 then Goto(s, t, otherwise)
    else Goto(s, t, Idle).(box := Shift(s.box, InAlloc(t, c), n - 1, Live))
  }

  /** A push to the free magazine whose failure drops the block. */
  function PutStep(s: State, t: Tid, c: nat): State {
    if At(s.box, InHand(t, c)) == [] then Goto(s, t, Idle) else PutInto(s, t, c, PutTarget(s, t, c))
  }

  function PutTarget(s: State, t: Tid, c: nat): Place {
    if |FreeMag(s, t, c)| < MAGAZINE_CAPACITY then InFree(t, c) else Leaked
  }

  function PutInto(s: State, t: Tid, c: nat, to: Place): State
    requires At(s.box, InHand(t, c)) != []
  {
    Goto(s, t, Idle).(box := Shift(s.box, InHand(t, c), 0, to))
  }

  /** `pop_full` after it learned the head: null ends it. */
  function AfterPopLoad(c: nat, head: Ptr): Pc {
    if head == NULL then Miss(c) else PopNext(c, head)
  }

  /** One step of thread `t`, by the part of the code it is in. */
  function GoStep(s: State, t: Tid, choice: Choice): State
    requires GoEnabled(s, t, choice)
  {
    var pc := PcOf(s, t);
    if pc.TryLocal? || pc.TakeSwapped? || pc.TakePopped? || pc.Miss? then AllocGo(s, t, choice)
    else if pc.PopLoad? || pc.PopNext? || pc.PopCas? then PopGo(s, t, choice)
    else if pc.HoldsPopped() then EmptyGo(s, t, choice)
    else if pc.HoldsNew() then FullGo(s, t, choice)
    else FreeGo(s, t, choice)
  }

  /** `alloc`: the local magazines, and the cache miss. */
  function AllocGo(s: State, t: Tid, choice: Choice): State
    requires GoEnabled(s, t, choice)
  {
    match PcOf(s, t)
    case TryLocal(c) =>
      if AllocMag(s, t, c) == [] && FreeMag(s, t, c) != [] then
        Goto(s, t, TakeSwapped(c)).(box := s.box[InAlloc(t, c) := FreeMag(s, t, c)][InFree(t, c) := AllocMag(s, t, c)])
      else TakeStep(s, t, c, PopLoad(c))
    case TakeSwapped(c) => TakeStep(s, t, c, PopLoad(c))
    case TakePopped(c) => TakeStep(s, t, c, Miss(c))
    case Miss(c) =>
      if choice.BulkPage? then CarvePage(Goto(s, t, Idle), t, c, choice.base)
      else if choice.SingleRun? then CarveSingle(Goto(s, t, Idle), c, choice.base)
      else Goto(s, t, Idle)
    case _ => s
  }

  /** `pop_full`. */
  function PopGo(s: State, t: Tid, choice: Choice): State {
    match PcOf(s, t)
    case PopLoad(c) => Goto(s, t, AfterPopLoad(c, FullHead(s, c)))
    case PopNext(c, cur) => Goto(s, t, PopCas(c, cur, Next(s, cur)))
    case PopCas(c, cur, nxt) =>
      if choice.Proceed? && FullHead(s, c) == cur then
        Goto(s, t, Exchange(c, cur)).(fullHead := s.fullHead[c := nxt])
      else Goto(s, t, AfterPopLoad(c, FullHead(s, c)))
    case _ => s
  }

  /** The exchange of magazines, and `push_empty`. */
  function EmptyGo(s: State, t: Tid, choice: Choice): State {
    match PcOf(s, t)
    case Exchange(c, node) =>
      // swap the two magazines, then clear the node's
      Goto(s, t, EmptyLoad(c, node)).(box := Pour(s.box, InNode(node), InAlloc(t, c)))
    case EmptyLoad(c, node) => Goto(s, t, EmptyLink(c, node, EmptyHead(s, c)))
    case EmptyLink(c, node, cur) => Goto(s, t, EmptyCas(c, node, cur)).(next := s.next[node := cur])
    case EmptyCas(c, node, cur) =>
      if choice.Proceed? && EmptyHead(s, c) == cur then
        Goto(s, t, TakePopped(c)).(emptyHead := s.emptyHead[c := node])
      else Goto(s, t, EmptyLink(c, node, EmptyHead(s, c)))
    case _ => s
  }

  /** Filling a new node, and `push_full`. */
  function FullGo(s: State, t: Tid, choice: Choice): State {
    match PcOf(s, t)
    case Fill(c, node) =>
      Goto(s, t, FullLoad(c, node)).(box := Pour(s.box, InFree(t, c), InNode(node)), next := s.next[node := NULL])
    case FullLoad(c, node) => Goto(s, t, FullLink(c, node, FullHead(s, c)))
    case FullLink(c, node, cur) => Goto(s, t, FullCas(c, node, cur)).(next := s.next[node := cur])
    case FullCas(c, node, cur) =>
      if choice.Proceed? && FullHead(s, c) == cur then
        Goto(s, t, PutLocal(c)).(fullHead := s.fullHead[c := node])
      else Goto(s, t, FullLink(c, node, FullHead(s, c)))
    case _ => s
  }

  /** `dealloc`: the local magazine, and the wish for a node. */
  function FreeGo(s: State, t: Tid, choice: Choice): State {
    match PcOf(s, t)
    case TryPut(c) =>
      if |FreeMag(s, t, c)| < MAGAZINE_CAPACITY then PutStep(s, t, c) else Goto(s, t, NeedNode(c))
    case NeedNode(c) =>
      if choice.FreshNode? then Goto(s, t, Fill(c, choice.node)).(nodes := s.nodes + {choice.node})
      else PutStep(s, t, c)
    case PutLocal(c) => PutStep(s, t, c)
    case _ => s
  }

  // Which part of the code a step belongs to

  lemma GoesAlloc(s: State, t: Tid, choice: Choice)
    requires GoEnabled(s, t, choice)
    requires PcOf(s, t).TryLocal? || PcOf(s, t).TakeSwapped? || PcOf(s, t).TakePopped? || PcOf(s, t).Miss?
    ensures GoStep(s, t, choice) == AllocGo(s, t, choice)
  {
    hide AllocGo, PopGo, EmptyGo, FullGo, FreeGo, GoEnabled;
  }

  lemma GoesPop(s: State, t: Tid, choice: Choice)
    requires GoEnabled(s, t, choice) && (PcOf(s, t).PopLoad? || PcOf(s, t).PopNext? || PcOf(s, t).PopCas?)
    ensures GoStep(s, t, choice) == PopGo(s, t, choice)
  {
    hide AllocGo, PopGo, EmptyGo, FullGo, FreeGo, GoEnabled;
  }

  lemma GoesEmpty(s: State, t: Tid, choice: Choice)
    requires GoEnabled(s, t, choice) && PcOf(s, t).HoldsPopped()
    ensures GoStep(s, t, choice) == EmptyGo(s, t, choice)
  {
    hide AllocGo, PopGo, EmptyGo, FullGo, FreeGo, GoEnabled;
  }

  lemma GoesFull(s: State, t: Tid, choice: Choice)
    requires GoEnabled(s, t, choice) && PcOf(s, t).HoldsNew()
    ensures GoStep(s, t, choice) == FullGo(s, t, choice)
  {
    hide AllocGo, PopGo, EmptyGo, FullGo, FreeGo, GoEnabled;
  }

  lemma GoesFree(s: State, t: Tid, choice: Choice)
    requires GoEnabled(s, t, choice) && (PcOf(s, t).TryPut? || PcOf(s, t).NeedNode? || PcOf(s, t).PutLocal?)
    ensures GoStep(s, t, choice) == FreeGo(s, t, choice)
  {
    hide AllocGo, PopGo, EmptyGo, FullGo, FreeGo, GoEnabled;
  }

  /** How many of `count` blocks `bulk_init` can add to a magazine of `used`. */
  function BulkRoom(used: nat, count: nat): nat {
    var room := if used > MAGAZINE_CAPACITY then 0 else MAGAZINE_CAPACITY - used;
    if count < room then count else room
  }

  /** The blocks of a page of class `c` at `base`. */
  function PageBlocks(base: nat, c: nat): seq<nat> {
    seq(BlocksPerPage(c), i requires 0 <= i => base + i * BlockSize(c))
  }

  /** Add blocks to a place. */
  function Fresh(box: Boxes, l: Place, blocks: seq<nat>): Boxes {
    box[l := At(box, l) + blocks]
  }

  /** A cache miss served by one page cut into blocks: the first goes to the
      caller, the magazine takes what it can. */
  function CarvePage(s: State, t: Tid, c: nat, base: nat): State
    requires BlocksPerPage(c) > 1
  {
    var blocks := PageBlocks(base, c);
    var room := BulkRoom(|AllocMag(s, t, c)|, |blocks| - 1);
    var box1 := Fresh(s.box, Live, blocks[..1]);
    var box2 := Fresh(box1, InAlloc(t, c), blocks[1..1 + room]);
    s.(box := Fresh(box2, HadNoRoom(c), blocks[1 + room..]),
       carved := s.carved + (map b | b in blocks :: c),
       bulkPages := s.bulkPages[c := BulkPages(s, c) + 1],
       pages := s.pages + PageRun(base, 1))
  }

  /** A cache miss served by a run of pages holding a single block. */
  function CarveSingle(s: State, c: nat, base: nat): State {
    s.(box := Fresh(s.box, Live, [base]), carved := s.carved[base := c], pages :=
        s.pages + PageRun(base, PagesForBlock(c)))
  }

  // ------------------------------------------------------------------
  // Runs
  // ------------------------------------------------------------------

  /** A run: the states an interleaving of steps goes through. */
  ghost predicate IsRun(states: seq<State>, steps: seq<Step>) {
    && |states| == |steps| + 1
    && states[0] == INITIAL
    && (forall i :: 0 <= i < |steps| ==> Follows(states[i], steps[i], states[i + 1]))
  }

  ghost predicate Follows(s: State, step: Step, s': State) {
    Enabled(s, step) && s' == Apply(s, step)
  }

  /** The node a step publishes on the full stack of class `c`, if any. */
  function PushesFull(s: State, step: Step, c: nat): Option<Ptr> {
    if step.Go? && step.choice.Proceed? && PcOf(s, step.t).FullCas? && PcOf(s, step.t).c == c
       && FullHead(s, c) == PcOf(s, step.t).cur then Some(PcOf(s, step.t).node)
    else None
  }

  /** The node a step takes off the full stack of class `c`, if any. */
  function PopsFull(s: State, step: Step, c: nat): Option<Ptr> {
    if step.Go? && step.choice.Proceed? && PcOf(s, step.t).PopCas? && PcOf(s, step.t).c == c
       && FullHead(s, c) == PcOf(s, step.t).cur then Some(PcOf(s, step.t).cur)
    else None
  }

  // ------------------------------------------------------------------
  // The invariant, over auxiliary state
  // ------------------------------------------------------------------

  /** The life of a node only moves forward through these stages. */
  datatype Stage = New(t: Tid) | OnFull | Popped(t: Tid) | OnEmpty

  /** `place` and `stage` say where each block and node is, `cls` which size
      class a node serves; `full` and `empty` are the two stacks, top first. */
  datatype Aux = Aux(
    place: map<nat, Place>,
    stage: map<Ptr, Stage>,
    cls: map<Ptr, nat>,
    full: map<nat, seq<Ptr>>,
    empty: map<nat, seq<Ptr>>)

  const AUX0 := Aux(map[], map[], map[], map[], map[])

  function FullOf(g: Aux, c: nat): seq<Ptr> { if c in g.full then g.full[c] else [] }
  function EmptyOf(g: Aux, c: nat): seq<Ptr> { if c in g.empty then g.empty[c] else [] }

  /** Each block is in exactly one place, once. */
  ghost predicate Placed(box: Boxes, place: map<nat, Place>) {
    && (forall l, b {:trigger b in At(box, l)} :: b in At(box, l) ==> b in place && place[b] == l)
    && (forall b :: b in place ==> b in At(box, place[b]))
    && (forall l :: Distinct(At(box, l)))
  }

  /** Each block is in a place of its own class. */
  ghost predicate Classed(place: map<nat, Place>, carved: map<nat, nat>, cls: map<Ptr, nat>) {
    forall b :: b in place ==> b in carved && ClassFits(place[b], carved[b], cls)
  }

  predicate ClassFits(l: Place, c: nat, cls: map<Ptr, nat>) {
    match l
    case InAlloc(_, d) => c == d
    case InFree(_, d) => c == d
    case InHand(_, d) => c == d
    case HadNoRoom(d) => c == d
    case InNode(n) => n in cls && cls[n] == c
    case _ => true
  }

  ghost predicate BlocksOk(s: State, g: Aux) {
    BlocksIn(s.box, s.carved, g.place, g.cls)
  }

  ghost predicate BlocksIn(box: Boxes, carved: map<nat, nat>, place: map<nat, Place>, cls: map<Ptr, nat>) {
    Placed(box, place) && place.Keys == carved.Keys && Classed(place, carved, cls)
  }

  /** `head` starts a null-terminated chain through `next` that visits exactly `stack`. */
  ghost predicate Chain(next: map<Ptr, Ptr>, head: Ptr, stack: seq<Ptr>) {
    && head == (if |stack| == 0 then NULL else stack[0])
    && (forall i :: 0 <= i < |stack| ==> stack[i] != NULL && Link(next, stack[i]) == Below(stack, i))
  }

  /** The node under the i-th of a stack. */
  function Below(stack: seq<Ptr>, i: nat): Ptr {
    if i + 1 < |stack| then stack[i + 1] else NULL
  }

  /** The stacks are chains of distinct nodes of the right stage and class. */
  ghost predicate StackOk(next: map<Ptr, Ptr>, head: Ptr, stack: seq<Ptr>, g: Aux, stage: Stage, c: nat) {
    && Chain(next, head, stack)
    && Distinct(stack)
    && (forall n :: n in stack ==> n in g.stage && g.stage[n] == stage && n in g.cls && g.cls[n] == c)
  }

  ghost predicate StacksOk(s: State, g: Aux) {
    && (forall c :: StackOk(s.next, FullHead(s, c), FullOf(g, c), g, OnFull, c))
    && (forall c :: StackOk(s.next, EmptyHead(s, c), EmptyOf(g, c), g, OnEmpty, c))
  }

  /** Nodes are owned by one thread or lie on one stack. */
  ghost predicate NodesOk(s: State, g: Aux) {
    && NULL !in s.nodes
    && g.stage.Keys == s.nodes && g.cls.Keys == s.nodes
    && (forall n :: n in s.nodes ==> NodeOk(s, g, n))
    && (forall t :: OwnerOk(s, g, t))
  }

  ghost predicate NodeOk(s: State, g: Aux, n: Ptr)
    requires n in g.stage && n in g.cls
  {
    match g.stage[n]
    case New(t) => PcOf(s, t).HoldsNew() && PcOf(s, t).node == n && PcOf(s, t).c == g.cls[n]
    case OnFull => n in FullOf(g, g.cls[n]) && |NodeMag(s, n)| == MAGAZINE_CAPACITY
    case Popped(t) => PcOf(s, t).HoldsPopped() && PcOf(s, t).node == n && PcOf(s, t).c == g.cls[n]
    case OnEmpty => n in EmptyOf(g, g.cls[n]) && NodeMag(s, n) == []
  }

  ghost predicate OwnerOk(s: State, g: Aux, t: Tid) {
    var pc := PcOf(s, t);
    && (pc.HoldsNew() ==> pc.node in g.stage && g.stage[pc.node] == New(t))
    && (pc.HoldsPopped() ==> pc.node in g.stage && g.stage[pc.node] == Popped(t))
  }

  /** A node read as the head of the full stack of `c` was on it then. */
  ghost predicate WasOnFull(g: Aux, n: Ptr, c: nat) {
    && n != NULL && n in g.stage && n in g.cls
    && g.cls[n] == c && !g.stage[n].New?
  }

  ghost predicate BothEmpty(s: State, t: Tid, c: nat) {
    AllocMag(s, t, c) == [] && FreeMag(s, t, c) == []
  }

  /** What a thread may rely on at each point. */
  ghost predicate ThreadOk(s: State, g: Aux, t: Tid) {
    HandOk(s, t) && PointOk(s, g, t)
  }

  /** A thread has a block in hand exactly while it is freeing one. */
  ghost predicate HandOk(s: State, t: Tid) {
    var pc := PcOf(s, t);
    && (!pc.Idle? ==> pc.c < NUM_CLASSES)
    && (forall c :: |At(s.box, InHand(t, c))| == if pc.Freeing() && pc.c == c then 1 else 0)
  }

  ghost predicate PointOk(s: State, g: Aux, t: Tid) {
    match PcOf(s, t)
    case TakeSwapped(c) => AllocMag(s, t, c) != []
    case PopLoad(c) => BothEmpty(s, t, c)
    case PopNext(c, cur) => BothEmpty(s, t, c) && WasOnFull(g, cur, c)
    case PopCas(c, cur, nxt) =>
      BothEmpty(s, t, c) && WasOnFull(g, cur, c) && (g.stage[cur].OnFull? ==> nxt == Next(s, cur))
    case Exchange(c, node) => BothEmpty(s, t, c) && |NodeMag(s, node)| == MAGAZINE_CAPACITY
    case EmptyLoad(c, node) => |AllocMag(s, t, c)| == MAGAZINE_CAPACITY && NodeMag(s, node) == []
    case EmptyLink(c, node, cur) => |AllocMag(s, t, c)| == MAGAZINE_CAPACITY && NodeMag(s, node) == []
    case EmptyCas(c, node, cur) =>
      |AllocMag(s, t, c)| == MAGAZINE_CAPACITY && NodeMag(s, node) == [] && Next(s, node) == cur
    case TakePopped(c) => |AllocMag(s, t, c)| == MAGAZINE_CAPACITY
    case Miss(c) => BothEmpty(s, t, c)
    case NeedNode(c) => |FreeMag(s, t, c)| == MAGAZINE_CAPACITY
    case Fill(c, node) => |FreeMag(s, t, c)| == MAGAZINE_CAPACITY && NodeMag(s, node) == []
    case FullLoad(c, node) => FreeMag(s, t, c) == [] && |NodeMag(s, node)| == MAGAZINE_CAPACITY
    case FullLink(c, node, cur) => FreeMag(s, t, c) == [] && |NodeMag(s, node)| == MAGAZINE_CAPACITY
    case FullCas(c, node, cur) =>
      FreeMag(s, t, c) == [] && |NodeMag(s, node)| == MAGAZINE_CAPACITY && Next(s, node) == cur
    case PutLocal(c) => FreeMag(s, t, c) == []
    case _ => true
  }

  ghost predicate SizesOk(s: State) {
    && (forall n :: n !in s.nodes ==> NodeMag(s, n) == [])
    && (forall t, c :: |AllocMag(s, t, c)| <= MAGAZINE_CAPACITY && |FreeMag(s, t, c)| <= MAGAZINE_CAPACITY)
    && (forall c: nat :: c < NUM_CLASSES ==> NoRoomOk(At(s.box, HadNoRoom(c)), BulkPages(s, c), c))
  }

  /** So many blocks of class `c` were passed over as its carved pages explain. */
  ghost predicate NoRoomOk(blocks: seq<nat>, pages: nat, c: nat) {
    |blocks| == pages * Overflow(c)
  }

  /** Two byte ranges do not meet. */
  predicate Apart(a: nat, aSize: nat, b: nat, bSize: nat) {
    a + aSize <= b || b + bSize <= a
  }

  /** Every page a byte range touches is mapped. */
  ghost predicate Mapped(pages: set<nat>, a: nat, size: nat) {
    forall p :: a / PAGE_SIZE <= p && p * PAGE_SIZE < a + size ==> p in pages
  }

  ghost predicate BlockMemoryOk(carved: map<nat, nat>, pages: set<nat>) {
    && (forall b :: b in carved ==>
        carved[b] < NUM_CLASSES && b > 0 && b % 16 == 0 && Mapped(pages, b, BlockSize(carved[b])))
    && (forall a, b :: a in carved && b in carved && a != b ==> Apart(a, BlockSize(carved[a]), b, BlockSize(carved[b])))
  }

  ghost predicate LargeMemoryOk(large: map<nat, nat>, pages: set<nat>) {
    && (forall b :: b in large ==>
        b > 0 && b % PAGE_SIZE == 0 && large[b] >= 1 && Mapped(pages, b, large[b] * PAGE_SIZE))
    && (forall a, b :: a in large && b in large && a != b ==> Apart(a, large[a] * PAGE_SIZE, b, large[b] * PAGE_SIZE))
  }

  ghost predicate MemoryOk(s: State) {
    && BlockMemoryOk(s.carved, s.pages)
    && LargeMemoryOk(s.large, s.pages)
    && (forall a, b :: a in s.carved && b in s.large ==> Apart(a, BlockSize(s.carved[a]), b, s.large[b] * PAGE_SIZE))
  }

  ghost predicate ThreadsOk(s: State, g: Aux) {
    forall t :: ThreadOk(s, g, t)
  }

  ghost predicate Inv(s: State, g: Aux) {
    BlocksOk(s, g) && StacksOk(s, g) && NodesOk(s, g) && ThreadsOk(s, g) && SizesOk(s) && MemoryOk(s)
  }
}
