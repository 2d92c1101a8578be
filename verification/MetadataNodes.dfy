/** `MetadataAllocator::alloc_node`: magazine nodes cut from pages by a bump
    offset, with page and offset in two separate atomics.

    Any number of threads call it; each load, store and compare-and-swap is a
    step.  The nodes handed out are distinct as long as no page refill overlaps a
    bump; with one calling thread that is always so, with two it is not. */
module MetadataNodes {
  import opened Bits
  import opened Common

  const PAGE_SIZE: nat := 4096
  const NODE_SIZE: nat := 528
  const NODE_ALIGN: nat := 8

  type Tid = nat

  datatype Pc =
    | Idle
    | Called
    | Loaded(offset: nat)
    | GotBump(at: nat)
    | HasPage(mine: nat)
    | ToCas(mine: nat, cur: nat)
    | ToStore(mine: nat)

  /** `pages` are mapped; `given` are the nodes returned so far. */
  datatype State = State(page: nat, offset: nat, pc: map<Tid, Pc>, pages: set<nat>, given: set<nat>)

  const INITIAL := State(0, PAGE_SIZE, map[], {}, {})

  function PcOf(s: State, t: Tid): Pc { if t in s.pc then s.pc[t] else Idle }

  function Aligned(offset: nat): nat { AlignUp(offset, NODE_ALIGN) }

  datatype Step =
    | Call(t: Tid)
    | Load(t: Tid)
    | Bump(t: Tid, spurious: bool)
    | Give(t: Tid)
    | MapPage(t: Tid, answer: Option<nat>)
    | LoadPage(t: Tid)
    | CasPage(t: Tid, spurious: bool)
    | StoreOffset(t: Tid)

  ghost predicate Enabled(s: State, e: Step) {
    match e
    case Call(t) => PcOf(s, t).Idle?
    case Load(t) => PcOf(s, t).Called?
    case Bump(t, _) => PcOf(s, t).Loaded? && Aligned(PcOf(s, t).offset) + NODE_SIZE <= PAGE_SIZE
    case Give(t) => PcOf(s, t).GotBump?
    case MapPage(t, answer) =>
      && PcOf(s, t).Loaded? && Aligned(PcOf(s, t).offset) + NODE_SIZE > PAGE_SIZE
      && (answer.Some? ==> answer.value > 0 && answer.value % PAGE_SIZE == 0 && answer.value !in s.pages)
    case LoadPage(t) => PcOf(s, t).HasPage?
    case CasPage(t, _) => PcOf(s, t).ToCas?
    case StoreOffset(t) => PcOf(s, t).ToStore?
  }

  ghost function After(s: State, e: Step): State
    requires Enabled(s, e)
  {
    match e
    case Call(t) => s.(pc := s.pc[t := Called])
    case Load(t) => s.(pc := s.pc[t := Loaded(s.offset)])
    case Bump(t, spurious) =>
      var at := Aligned(PcOf(s, t).offset);
      if s.offset == PcOf(s, t).offset && !spurious then s.(offset := at + NODE_SIZE, pc := s.pc[t := GotBump(at)])
      else s.(pc := s.pc[t := Called])
    case Give(t) => s.(given := s.given + {s.page + PcOf(s, t).at}, pc := s.pc[t := Idle])
    case MapPage(t, answer) =>
      (match answer
       case None => s.(pc := s.pc[t := Idle])
       case Some(mine) => s.(pages := s.pages + {mine}, pc := s.pc[t := HasPage(mine)]))
    case LoadPage(t) => s.(pc := s.pc[t := ToCas(PcOf(s, t).mine, s.page)])
    case CasPage(t, spurious) =>
      var pc := PcOf(s, t);
      if s.page == pc.cur && !spurious then s.(page := pc.mine, pc := s.pc[t := ToStore(pc.mine)])
      else s.(pages := s.pages - {pc.mine}, pc := s.pc[t := Called])
    case StoreOffset(t) =>
      s.(offset := NODE_SIZE, given := s.given + {PcOf(s, t).mine}, pc := s.pc[t := Idle])
  }

  /** The node a step returns, if any. */
  ghost function Returned(s: State, e: Step): Option<nat>
    requires Enabled(s, e)
  {
    match e
    case Give(t) => Some(s.page + PcOf(s, t).at)
    case StoreOffset(t) => Some(PcOf(s, t).mine)
    case _ => None
  }

  /** No refill, from installing its page to resetting the offset, overlaps a
      bump, from moving the offset to reading the page.  Refills may overlap. */
  ghost predicate Apart(s: State) {
    forall t: Tid, u: Tid :: PcOf(s, t).ToStore? ==> !PcOf(s, u).GotBump?
  }

  // ------------------------------------------------------------------
  // The invariant
  // ------------------------------------------------------------------

  function PageOf(p: nat): nat { p - p % PAGE_SIZE }

  /** The seven node positions of a page. */
  predicate Slot(offset: nat) {
    offset % NODE_SIZE == 0 && offset + NODE_SIZE <= PAGE_SIZE
  }

  ghost predicate NodeOk(s: State, p: nat) {
    PageOf(p) in s.pages && Slot(p % PAGE_SIZE)
  }

  ghost predicate NoneIn(s: State, page: nat) {
    forall p :: p in s.given ==> PageOf(p) != page
  }

  ghost predicate Storing(s: State) {
    exists t: Tid :: PcOf(s, t).ToStore?
  }

  ghost predicate ThreadOk(s: State, t: Tid) {
    match PcOf(s, t)
    case GotBump(at) => s.page in s.pages && Slot(at) && at + NODE_SIZE <= s.offset && s.page + at !in s.given
    case HasPage(mine) => mine in s.pages && mine != s.page && NoneIn(s, mine)
    case ToCas(mine, _) => mine in s.pages && mine != s.page && NoneIn(s, mine)
    case ToStore(mine) => mine in s.pages && NoneIn(s, mine)
    case _ => true
  }

  function Fresh(pc: Pc): nat { if pc.HasPage? || pc.ToCas? || pc.ToStore? then pc.mine else 0 }

  ghost predicate ThreadsApart(s: State, t: Tid, u: Tid) {
    && (PcOf(s, t).GotBump? && PcOf(s, u).GotBump? ==> PcOf(s, t).at != PcOf(s, u).at)
    && (Fresh(PcOf(s, t)) != 0 ==> Fresh(PcOf(s, t)) != Fresh(PcOf(s, u)))
  }

  ghost predicate OffsetOk(s: State) {
    && (s.offset == PAGE_SIZE || (s.offset % NODE_SIZE == 0 && NODE_SIZE <= s.offset <= 7 * NODE_SIZE
        && s.page in s.pages))
    && (!Storing(s) ==> forall p :: p in s.given && PageOf(p) == s.page ==> p % PAGE_SIZE + NODE_SIZE <= s.offset)
    && (Storing(s) ==> s.page in s.pages && forall p :: p in s.given && PageOf(p) == s.page ==> p == s.page)
  }

  ghost predicate Inv(s: State) {
    && (forall p :: p in s.pages ==> p > 0 && p % PAGE_SIZE == 0)
    && (forall p :: p in s.given ==> NodeOk(s, p))
    && (s.page == 0 || s.page in s.pages)
    && OffsetOk(s)
    && (forall t: Tid :: ThreadOk(s, t))
    && (forall t: Tid, u: Tid :: t != u ==> ThreadsApart(s, t, u))
  }

  lemma AlignedOffset(o: nat)
    requires o % 8 == 0 && o <= PAGE_SIZE
    ensures Aligned(o) == o
  {
    hide And, Not, AlignUp;
    assert IsPowerOfTwo(4) && IsPowerOfTwo(8);
    AlignUpRounds(o, 8);
  }

  lemma Within(page: nat, at: nat)
    requires page % PAGE_SIZE == 0 && at < PAGE_SIZE
    ensures PageOf(page + at) == page && (page + at) % PAGE_SIZE == at
  {
  }

  // ------------------------------------------------------------------
  // Every step
  // ------------------------------------------------------------------

  /** Steps that change only where thread `t` stands. */
  ghost predicate Quiet(s: State, s': State, t: Tid) {
    && s' == s.(pc := s'.pc) && (forall u: Tid :: u != t ==> PcOf(s', u) == PcOf(s, u))
    && !PcOf(s, t).ToStore? && !PcOf(s', t).ToStore? && !PcOf(s', t).GotBump?
    && !PcOf(s', t).HasPage? && (PcOf(s', t).ToCas? ==> PcOf(s, t).HasPage? && PcOf(s', t).mine == PcOf(s, t).mine)
  }

  /** A step of `t` that neither starts nor ends a refill. */
  lemma StoringSame(s: State, s': State, t: Tid)
    requires (forall u: Tid :: u != t ==> PcOf(s', u) == PcOf(s, u)) && !PcOf(s, t).ToStore? && !PcOf(s', t).ToStore?
    ensures Storing(s) <==> Storing(s')
  {
    if Storing(s) {
      var u: Tid :| PcOf(s, u).ToStore?;
      assert PcOf(s', u).ToStore?;
    }
    if Storing(s') {
      var u: Tid :| PcOf(s', u).ToStore?;
      assert PcOf(s, u).ToStore?;
    }
  }

  lemma QuietKeeps(s: State, s': State, t: Tid)
    requires Inv(s) && Quiet(s, s', t)
    ensures Inv(s')
  {
    hide NodeOk, Slot;
    StoringSame(s, s', t);
    hide Storing;
    forall u: Tid ensures ThreadOk(s', u) {
      assert ThreadOk(s, u);
    }
    forall u: Tid, v: Tid | u != v ensures ThreadsApart(s', u, v) {
      assert ThreadsApart(s, u, v);
    }
    assert forall p :: p in s'.given ==> NodeOk(s', p) by { SameNodes(s, s'); }
  }

  lemma SameNodes(s: State, s': State)
    requires s'.given == s.given && s.pages <= s'.pages && (forall p :: p in s.given ==> NodeOk(s, p))
    ensures forall p :: p in s'.given ==> NodeOk(s', p)
  {
    hide Slot;
  }

  /** The offset moved by a bump is a node position of the current page. */
  lemma BumpFits(s: State, t: Tid)
    requires OffsetOk(s) && Enabled(s, Bump(t, false)) && s.offset == PcOf(s, t).offset
    ensures Aligned(s.offset) == s.offset && s.offset < PAGE_SIZE && Slot(s.offset) && s.page in s.pages
    ensures (s.offset + NODE_SIZE) % NODE_SIZE == 0 && s.offset + NODE_SIZE <= 7 * NODE_SIZE
  {
    hide Storing, AlignUp;
    assert s.offset == PAGE_SIZE || s.offset == NODE_SIZE * (s.offset / NODE_SIZE);
    AlignedOffset(s.offset);
  }

  /** While a thread is inside a bump nobody refills. */
  lemma BumpIsAlone(s: State, t: Tid)
    requires Apart(s) && PcOf(s, t).GotBump?
    ensures !Storing(s)
  {
  }

  lemma BumpThreads(s: State, t: Tid, at: nat)
    requires Inv(s) && Enabled(s, Bump(t, false)) && s.offset == PcOf(s, t).offset
             && Aligned(s.offset) == s.offset == at
    requires Slot(at) && s.page in s.pages && s.page + at !in s.given
    ensures forall u: Tid :: ThreadOk(After(s, Bump(t, false)), u)
    ensures forall u: Tid, v: Tid :: u != v ==> ThreadsApart(After(s, Bump(t, false)), u, v)
  {
    hide Aligned, NodeOk, Slot, PageOf, OffsetOk;
    var s' := After(s, Bump(t, false));
    forall u: Tid ensures ThreadOk(s', u) {
      assert ThreadOk(s, u);
    }
    forall u: Tid, v: Tid | u != v ensures ThreadsApart(s', u, v) {
      assert ThreadsApart(s, u, v) && ThreadOk(s, u) && ThreadOk(s, v);
    }
  }

  lemma BumpKeeps(s: State, t: Tid)
    requires Inv(s) && Enabled(s, Bump(t, false)) && s.offset == PcOf(s, t).offset && Apart(After(s, Bump(t, false)))
    ensures Inv(After(s, Bump(t, false)))
  {
    hide Aligned, NodeOk, Slot, PageOf, ThreadOk, ThreadsApart, Apart, Storing;
    var s', at := After(s, Bump(t, false)), s.offset;
    BumpFits(s, t);
    BumpIsAlone(s', t);
    StoringSame(s, s', t);
    assert s.page + at !in s.given by { Within(s.page, at); }
    BumpThreads(s, t, at);
    SameNodes(s, s');
  }

  lemma GiveKeeps(s: State, t: Tid)
    requires Inv(s) && Apart(s) && Enabled(s, Give(t))
    ensures Inv(After(s, Give(t)))
  {
    var s', at := After(s, Give(t)), PcOf(s, t).at;
    assert ThreadOk(s, t);
    Within(s.page, at);
    BumpIsAlone(s, t);
    StoringSame(s, s', t);
    hide PageOf, Storing;
    forall u: Tid ensures ThreadOk(s', u) {
      assert ThreadOk(s, u) && (u != t ==> ThreadsApart(s, t, u));
    }
    forall u: Tid, v: Tid | u != v ensures ThreadsApart(s', u, v) {
      assert ThreadsApart(s, u, v);
    }
    assert forall p :: p in s'.given ==> p in s.given || p == s.page + at;
  }

  lemma MapKeeps(s: State, t: Tid, mine: nat)
    requires Inv(s) && Enabled(s, MapPage(t, Some(mine)))
    ensures Inv(After(s, MapPage(t, Some(mine))))
  {
    var s' := After(s, MapPage(t, Some(mine)));
    StoringSame(s, s', t);
    hide Storing, PageOf, Slot, Aligned;
    forall u: Tid ensures ThreadOk(s', u) {
      assert ThreadOk(s, u);
    }
    forall u: Tid, v: Tid | u != v ensures ThreadsApart(s', u, v) {
      assert ThreadsApart(s, u, v) && ThreadOk(s, u) && ThreadOk(s, v);
    }
    SameNodes(s, s');
  }

  lemma InstallKeeps(s: State, t: Tid)
    requires Inv(s) && Enabled(s, CasPage(t, false)) && s.page == PcOf(s, t).cur && Apart(After(s, CasPage(t, false)))
    ensures Inv(After(s, CasPage(t, false)))
  {
    var s' := After(s, CasPage(t, false));
    assert ThreadOk(s, t);
    assert PcOf(s', t).ToStore?;
    hide PageOf, Slot;
    forall u: Tid ensures ThreadOk(s', u) {
      assert ThreadOk(s, u) && (u != t ==> ThreadsApart(s, t, u));
    }
    forall u: Tid, v: Tid | u != v ensures ThreadsApart(s', u, v) {
      assert ThreadsApart(s, u, v);
    }
    SameNodes(s, s');
  }

  lemma DiscardKeeps(s: State, t: Tid, spurious: bool)
    requires Inv(s) && Enabled(s, CasPage(t, spurious)) && (s.page != PcOf(s, t).cur || spurious)
    ensures Inv(After(s, CasPage(t, spurious)))
  {
    var s' := After(s, CasPage(t, spurious));
    assert ThreadOk(s, t);
    StoringSame(s, s', t);
    hide Storing, PageOf, Slot;
    forall u: Tid ensures ThreadOk(s', u) {
      assert ThreadOk(s, u) && (u != t ==> ThreadsApart(s, t, u));
    }
    forall u: Tid, v: Tid | u != v ensures ThreadsApart(s', u, v) {
      assert ThreadsApart(s, u, v);
    }
  }

  lemma StoreKeeps(s: State, t: Tid)
    requires Inv(s) && Apart(s) && Enabled(s, StoreOffset(t))
    ensures Inv(After(s, StoreOffset(t)))
  {
    var s', mine := After(s, StoreOffset(t)), PcOf(s, t).mine;
    assert ThreadOk(s, t);
    assert Storing(s);
    Within(mine, 0);
    Within(s.page, 0);
    hide PageOf, Storing;
    forall u: Tid ensures ThreadOk(s', u) {
      assert ThreadOk(s, u) && (u != t ==> ThreadsApart(s, t, u));
    }
    forall u: Tid, v: Tid | u != v ensures ThreadsApart(s', u, v) {
      assert ThreadsApart(s, u, v);
    }
    assert forall p :: p in s'.given ==> p in s.given || p == mine;
  }

  lemma StepKeepsInv(s: State, e: Step)
    requires Inv(s) && Enabled(s, e) && Apart(s) && Apart(After(s, e))
    ensures Inv(After(s, e))
  {
    hide Inv, Apart, Aligned;
    match e
    case Bump(t, spurious) =>
      if s.offset == PcOf(s, t).offset && !spurious {
        BumpKeeps(s, t);
      } else {
        QuietKeeps(s, After(s, e), t);
      }
    case Give(t) => GiveKeeps(s, t);
    case MapPage(t, answer) =>
      if answer.Some? {
        MapKeeps(s, t, answer.value);
      } else {
        QuietKeeps(s, After(s, e), t);
      }
    case CasPage(t, spurious) =>
      if s.page == PcOf(s, t).cur && !spurious {
        InstallKeeps(s, t);
      } else {
        DiscardKeeps(s, t, spurious);
      }
    case StoreOffset(t) => StoreKeeps(s, t);
    case _ => QuietKeeps(s, After(s, e), e.t);
  }

  // ------------------------------------------------------------------
  // Runs
  // ------------------------------------------------------------------

  ghost predicate CanRun(s: State, steps: seq<Step>)
    decreases |steps|
  {
    steps == [] || (Enabled(s, steps[0]) && CanRun(After(s, steps[0]), steps[1..]))
  }

  /** The state a run ends in. */
  ghost function End(s: State, steps: seq<Step>): State
    requires CanRun(s, steps)
    decreases |steps|
  {
    if steps == [] then s else End(After(s, steps[0]), steps[1..])
  }

  /** No refill overlaps a bump at any moment of the run. */
  ghost predicate AllApart(s: State, steps: seq<Step>)
    requires CanRun(s, steps)
    decreases |steps|
  {
    Apart(s) && (steps == [] || AllApart(After(s, steps[0]), steps[1..]))
  }

  lemma {:induction false} RunKeepsInv(s: State, steps: seq<Step>)
    requires Inv(s) && CanRun(s, steps) && AllApart(s, steps)
    ensures Inv(End(s, steps))
    decreases |steps|
  {
    hide Inv, Apart, Enabled, After;
    if steps != [] {
      StepKeepsInv(s, steps[0]);
      RunKeepsInv(After(s, steps[0]), steps[1..]);
    }
  }

  lemma InitialInv()
    ensures Inv(INITIAL)
  {
  }

  /** Two node positions are the same or a node apart. */
  lemma SlotsApart(x: nat, y: nat)
    requires Slot(x) && Slot(y) && x < y
    ensures x + NODE_SIZE <= y
  {
    MultipleGap(x, y, NODE_SIZE);
  }

  lemma NodesApart(s: State, p: nat, q: nat)
    requires NodeOk(s, p) && NodeOk(s, q) && p < q
    ensures p + NODE_SIZE <= q
  {
    hide Slot;
    SlotInPage(p);
    if PageOf(p) == PageOf(q) {
      SlotsApart(p % PAGE_SIZE, q % PAGE_SIZE);
    } else {
      PagesApart(p, q);
    }
  }

  lemma SlotInPage(p: nat)
    requires Slot(p % PAGE_SIZE)
    ensures p + NODE_SIZE <= PageOf(p) + PAGE_SIZE
  {
  }

  lemma PagesApart(p: nat, q: nat)
    requires p < q && PageOf(p) != PageOf(q)
    ensures PageOf(p) + PAGE_SIZE <= q
  {
  }

  /** Over every run without overlapping refills, the nodes handed out are
      aligned, each inside one mapped page, and pairwise disjoint. */
  lemma NodesAreDisjoint(steps: seq<Step>)
    requires CanRun(INITIAL, steps) && AllApart(INITIAL, steps)
    ensures var s := End(INITIAL, steps);
      && (forall p :: p in s.given ==>
          p > 0 && p % NODE_ALIGN == 0 && PageOf(p) in s.pages && p + NODE_SIZE <= PageOf(p) + PAGE_SIZE)
      && (forall p, q :: p in s.given && q in s.given && p < q ==> p + NODE_SIZE <= q)
  {
    hide Apart, Enabled, After, NodeOk, End, AllApart, CanRun;
    var s := End(INITIAL, steps);
    InitialInv();
    RunKeepsInv(INITIAL, steps);
    forall p | p in s.given
      ensures p > 0 && p % NODE_ALIGN == 0 && PageOf(p) in s.pages && p + NODE_SIZE <= PageOf(p) + PAGE_SIZE
    {
      NodePlace(s, p);
    }
    forall p, q | p in s.given && q in s.given && p < q
      ensures p + NODE_SIZE <= q
    {
      NodesApart(s, p, q);
    }
  }

  lemma NodePlace(s: State, p: nat)
    requires NodeOk(s, p) && forall x :: x in s.pages ==> x > 0 && x % PAGE_SIZE == 0
    ensures p > 0 && p % NODE_ALIGN == 0 && PageOf(p) in s.pages && p + NODE_SIZE <= PageOf(p) + PAGE_SIZE
  {
    SlotInPage(p);
    SlotAligned(p % PAGE_SIZE);
    AlignedSum(PageOf(p), p % PAGE_SIZE);
  }

  lemma SlotAligned(x: nat)
    requires Slot(x)
    ensures x % NODE_ALIGN == 0
  {
    assert x == NODE_SIZE * (x / NODE_SIZE);
  }

  lemma AlignedSum(page: nat, x: nat)
    requires page % PAGE_SIZE == 0 && x % NODE_ALIGN == 0
    ensures (page + x) % NODE_ALIGN == 0
  {
  }

  /** No step returns a node that was returned before. */
  ghost predicate AllNew(s: State, steps: seq<Step>)
    decreases |steps|
  {
    steps == [] ||
    (Enabled(s, steps[0])
     && (Returned(s, steps[0]).Some? ==> Returned(s, steps[0]).value !in s.given)
     && AllNew(After(s, steps[0]), steps[1..]))
  }

  lemma ReturnsNew(s: State, e: Step)
    requires Inv(s) && Enabled(s, e) && Returned(s, e).Some?
    ensures Returned(s, e).value !in s.given
    ensures After(s, e).given == s.given + {Returned(s, e).value}
  {
    hide NodeOk, OffsetOk, ThreadsApart, Slot, Aligned;
    assert ThreadOk(s, e.t);
    if e.StoreOffset? {
      Within(PcOf(s, e.t).mine, 0);
    }
  }

  /** A returned node was never returned before, and is remembered as given. */
  lemma {:induction false} ReturnedNodesAreNew(s: State, steps: seq<Step>)
    requires Inv(s) && CanRun(s, steps) && AllApart(s, steps)
    ensures AllNew(s, steps)
    decreases |steps|
  {
    hide Inv, Apart, Enabled, After, Returned;
    if steps != [] {
      if Returned(s, steps[0]).Some? {
        ReturnsNew(s, steps[0]);
      }
      StepKeepsInv(s, steps[0]);
      ReturnedNodesAreNew(After(s, steps[0]), steps[1..]);
    }
  }

  /** At most seven nodes come from one page. */
  lemma AtMostSevenPerPage(steps: seq<Step>, page: nat)
    requires CanRun(INITIAL, steps) && AllApart(INITIAL, steps)
    ensures |set p | p in End(INITIAL, steps).given && PageOf(p) == page| <= 7
  {
    hide Apart, Enabled, After, End, AllApart, CanRun;
    var s := End(INITIAL, steps);
    InitialInv();
    RunKeepsInv(INITIAL, steps);
    var mine := set p | p in s.given && PageOf(p) == page;
    var all := {page, page + 528, page + 1056, page + 1584, page + 2112, page + 2640, page + 3168};
    forall p | p in mine ensures p in all {
      assert NodeOk(s, p);
      SevenSlots(p % PAGE_SIZE);
    }
    Smaller(mine, all);
  }

  lemma SevenSlots(x: nat)
    requires Slot(x)
    ensures x in {0, 528, 1056, 1584, 2112, 2640, 3168}
  {
    assert x == 528 * (x / 528) && x / 528 <= 6;
  }

  lemma {:induction false} Smaller(x: set<nat>, y: set<nat>)
    requires x <= y
    ensures |x| <= |y|
    decreases x
  {
    if x != {} {
      var e :| e in x;
      Smaller(x - {e}, y - {e});
    }
  }

  // ------------------------------------------------------------------
  // How a call ends
  // ------------------------------------------------------------------

  /** A call ends by returning a node, and with null only if the page source refused
      a page; a failed compare-and-swap starts it over. */
  lemma CallEnds(s: State, e: Step, t: Tid)
    requires Enabled(s, e)
    ensures !PcOf(s, t).Idle? && PcOf(After(s, e), t).Idle? <==>
              e.t == t && (Returned(s, e).Some? || e == MapPage(t, None))
    ensures !PcOf(s, t).Idle? && e.t != t ==> PcOf(After(s, e), t) == PcOf(s, t)
  {
    hide Aligned;
  }

  function Ahead(pc: Pc): nat {
    match pc
    case Idle => 0
    case Called => 6
    case Loaded(_) => 5
    case GotBump(_) => 1
    case HasPage(_) => 3
    case ToCas(_, _) => 2
    case ToStore(_) => 1
  }

  /** No call gets stuck: every step brings it nearer to its end, except a
      compare-and-swap that fails, for no reason or because another thread moved the
      offset or installed a page meanwhile. */
  lemma EveryStepAdvances(s: State, e: Step)
    requires Enabled(s, e) && !e.Call?
    requires e.Bump? ==> !e.spurious && s.offset == PcOf(s, e.t).offset
    requires e.CasPage? ==> !e.spurious && s.page == PcOf(s, e.t).cur
    ensures Ahead(PcOf(After(s, e), e.t)) < Ahead(PcOf(s, e.t))
  {
    hide Aligned;
  }

  // ------------------------------------------------------------------
  // How many threads may call
  // ------------------------------------------------------------------

  ghost predicate ThreadsBelow(steps: seq<Step>, n: nat) {
    forall i :: 0 <= i < |steps| ==> steps[i].t < n
  }

  /** Every run of threads below `n` returns each node at most once. */
  ghost predicate SafeFor(n: nat) {
    forall steps: seq<Step> :: CanRun(INITIAL, steps) && ThreadsBelow(steps, n) ==> AllNew(INITIAL, steps)
  }

  // One thread

  ghost predicate OnlyZero(s: State) {
    forall t: Tid :: t > 0 ==> PcOf(s, t).Idle?
  }

  lemma OneIsApart(s: State)
    requires OnlyZero(s)
    ensures Apart(s)
  {
  }

  lemma ZeroStays(s: State, e: Step)
    requires OnlyZero(s) && Enabled(s, e) && e.t == 0
    ensures OnlyZero(After(s, e))
  {
    hide Aligned;
    forall t: Tid | t > 0
      ensures PcOf(After(s, e), t).Idle?
    {
      assert PcOf(s, t).Idle?;
    }
  }

  lemma {:induction false} OneThreadIsApart(s: State, steps: seq<Step>)
    requires OnlyZero(s) && CanRun(s, steps) && ThreadsBelow(steps, 1)
    ensures AllApart(s, steps)
    decreases |steps|
  {
    hide Enabled, After;
    OneIsApart(s);
    hide OnlyZero, Apart;
    if steps != [] {
      var e, rest := steps[0], steps[1..];
      ZeroStays(s, e);
      assert forall i :: 0 <= i < |rest| ==> rest[i] == steps[i + 1];
      OneThreadIsApart(After(s, e), rest);
    }
  }

  // Two threads

  /** A run of two threads in which a node comes twice. */
  ghost predicate Repeats(s: State, steps: seq<Step>) {
    CanRun(s, steps) && !AllNew(s, steps) && ThreadsBelow(steps, 2)
  }

  lemma Before(s: State, e: Step, s1: State, rest: seq<Step>)
    requires Enabled(s, e) && After(s, e) == s1 && e.t < 2 && Repeats(s1, rest)
    ensures Repeats(s, [e] + rest)
  {
    hide Enabled, After, Returned;
    var steps := [e] + rest;
    assert steps[1..] == rest;
    forall i | 0 <= i < |steps|
      ensures steps[i].t < 2
    {
      assert i > 0 ==> steps[i] == rest[i - 1];
    }
  }

  /** Thread 1 is about to return a node that was given before. */
  lemma GivesAgain(s: State)
    requires PcOf(s, 1).GotBump? && s.page + PcOf(s, 1).at in s.given
    ensures Repeats(s, [Give(1)] + [])
  {
    hide Aligned;
    var steps := [Give(1)] + [];
    assert steps[1..] == [] && steps[0] == Give(1);
    assert CanRun(After(s, steps[0]), []);
  }

  /** Thread 1 calls and moves the offset past the second node of its page. */
  lemma Bumps(s: State, s1: State, rest: seq<Step>) returns (steps: seq<Step>)
    requires s.offset == 528 && PcOf(s, 1) == Idle && s1 == s.(offset := 1056, pc := s.pc[1 := GotBump(528)])
    requires Repeats(s1, rest)
    ensures Repeats(s, steps)
  {
    hide Repeats, AlignUp;
    AlignedOffset(528);
    var a, b := s.(pc := s.pc[1 := Called]), s.(pc := s.pc[1 := Loaded(528)]);
    assert a.pc[1 := Loaded(528)] == b.pc && b.pc[1 := GotBump(528)] == s1.pc;
    Before(b, Bump(1, false), s1, rest);
    steps := [Bump(1, false)] + rest;
    Before(a, Load(1), b, steps);
    steps := [Load(1)] + steps;
    Before(s, Call(1), a, steps);
    steps := [Call(1)] + steps;
  }

  /** Thread `t` finds no page big enough and maps a new one. */
  lemma MapsPage(s: State, t: Tid, mine: nat, s1: State, rest: seq<Step>) returns (steps: seq<Step>)
    requires t < 2 && s.offset == PAGE_SIZE && PcOf(s, t) == Idle && mine > 0 && mine % PAGE_SIZE == 0
             && mine !in s.pages
    requires s1 == s.(pages := s.pages + {mine}, pc := s.pc[t := HasPage(mine)]) && Repeats(s1, rest)
    ensures Repeats(s, steps)
  {
    hide Repeats, AlignUp;
    AlignedOffset(PAGE_SIZE);
    var a, b := s.(pc := s.pc[t := Called]), s.(pc := s.pc[t := Loaded(PAGE_SIZE)]);
    assert a.pc[t := Loaded(PAGE_SIZE)] == b.pc && b.pc[t := HasPage(mine)] == s1.pc;
    Before(b, MapPage(t, Some(mine)), s1, rest);
    steps := [MapPage(t, Some(mine))] + rest;
    Before(a, Load(t), b, steps);
    steps := [Load(t)] + steps;
    Before(s, Call(t), a, steps);
    steps := [Call(t)] + steps;
  }

  /** Thread `t` installs its page. */
  lemma Installs(s: State, t: Tid, mine: nat, s1: State, rest: seq<Step>) returns (steps: seq<Step>)
    requires t < 2 && PcOf(s, t) == HasPage(mine) && s1 == s.(page := mine, pc := s.pc[t := ToStore(mine)])
             && Repeats(s1, rest)
    ensures Repeats(s, steps)
  {
    hide Repeats, Aligned;
    var a := s.(pc := s.pc[t := ToCas(mine, s.page)]);
    assert a.pc[t := ToStore(mine)] == s1.pc;
    Before(a, CasPage(t, false), s1, rest);
    steps := [CasPage(t, false)] + rest;
    Before(s, LoadPage(t), a, steps);
    steps := [LoadPage(t)] + steps;
  }

  /** Two threads refill at once; the first resets the offset while the second
      is past its bump, and the node the second gave comes again. */
  lemma TwoThreadsRepeat() returns (steps: seq<Step>)
    ensures Repeats(INITIAL, steps)
  {
    hide Repeats, Enabled, After;
    var pages := {4096, 8192};
    var s1 := State(0, PAGE_SIZE, map[0 := HasPage(4096)], {4096}, {});
    var s2 := State(0, PAGE_SIZE, map[0 := HasPage(4096), 1 := HasPage(8192)], pages, {});
    var s3 := State(4096, PAGE_SIZE, map[0 := ToStore(4096), 1 := HasPage(8192)], pages, {});
    var s4 := State(8192, PAGE_SIZE, map[0 := ToStore(4096), 1 := ToStore(8192)], pages, {});
    steps := FromTwoPages(s4);
    steps := Installs(s3, 1, 8192, s4, steps);
    steps := Installs(s2, 0, 4096, s3, steps);
    steps := MapsPage(s1, 1, 8192, s2, steps);
    steps := MapsPage(INITIAL, 0, 4096, s1, steps);
  }

  lemma FromTwoPages(s4: State) returns (steps: seq<Step>)
    requires s4 == State(8192, PAGE_SIZE, map[0 := ToStore(4096), 1 := ToStore(8192)], {4096, 8192}, {})
    ensures Repeats(s4, steps)
  {
    hide Repeats, Aligned;
    var pages := {4096, 8192};
    var s5 := State(8192, 528, map[0 := ToStore(4096), 1 := Idle], pages, {8192});
    var s6 := State(8192, 1056, map[0 := ToStore(4096), 1 := GotBump(528)], pages, {8192});
    var s7 := State(8192, 1056, map[0 := ToStore(4096), 1 := Idle], pages, {8192, 8720});
    var s8 := State(8192, 528, map[0 := Idle, 1 := Idle], pages, {4096, 8192, 8720});
    var s9 := State(8192, 1056, map[0 := Idle, 1 := GotBump(528)], pages, {4096, 8192, 8720});
    GivesAgain(s9);
    steps := Bumps(s8, s9, [Give(1)] + []);
    assert After(s7, StoreOffset(0)) == s8;
    Before(s7, StoreOffset(0), s8, steps);
    steps := [StoreOffset(0)] + steps;
    assert After(s6, Give(1)) == s7;
    Before(s6, Give(1), s7, steps);
    steps := [Give(1)] + steps;
    steps := Bumps(s5, s6, steps);
    assert After(s4, StoreOffset(1)) == s5;
    Before(s4, StoreOffset(1), s5, steps);
    steps := [StoreOffset(1)] + steps;
  }

  /** Each node is returned at most once, in every run of `n` threads, if and
      only if `n` is at most 1. */
  lemma SafeForOneThreadOnly(n: nat)
    ensures SafeFor(n) <==> n <= 1
  {
    hide Repeats;
    if n <= 1 {
      forall steps: seq<Step> | CanRun(INITIAL, steps) && ThreadsBelow(steps, n)
        ensures AllNew(INITIAL, steps)
      {
        assert ThreadsBelow(steps, 1);
        InitialInv();
        OneThreadIsApart(INITIAL, steps);
        ReturnedNodesAreNew(INITIAL, steps);
      }
    } else {
      var steps := TwoThreadsRepeat();
      RepeatingRun(steps);
      assert ThreadsBelow(steps, n);
    }
  }

  lemma RepeatingRun(steps: seq<Step>)
    requires Repeats(INITIAL, steps)
    ensures CanRun(INITIAL, steps) && !AllNew(INITIAL, steps) && ThreadsBelow(steps, 2)
  {
  }
}
