/** The default build with `alloc_node` run inside `dealloc`, step by step.

    In the magazine machine a thread that needs a node is handed a new one.  Here
    it calls the metadata allocator, and while it is in that call all threads take
    steps.  Runs in which no page refill overlaps a bump are runs of the magazine
    machine; one freeing thread sees to that, two do not: they have a run that
    loses blocks. */
module DefaultBuild {
  import opened Common
  import opened BlockLayout
  import opened MagazineMachine
  import opened MagazineProof
  import opened MagazineSafety
  import MetadataNodes

  datatype World = World(m: State, n: MetadataNodes.State)

  const START := World(INITIAL, MetadataNodes.INITIAL)

  /** A step outside `alloc_node`, or one inside a call of it. */
  datatype Act = Outside(step: Step) | Inside(call: MetadataNodes.Step)

  ghost predicate Allowed(w: World, a: Act) {
    match a
    case Outside(e) => Enabled(w.m, e) && !(e.Go? && PcOf(w.m, e.t).NeedNode?)
    case Inside(e) => MetadataNodes.Enabled(w.n, e) && PcOf(w.m, e.t).NeedNode?
  }

  /** What a step makes `alloc_node` return, if it returns. */
  ghost function Answer(n: MetadataNodes.State, e: MetadataNodes.Step): Option<Choice>
    requires MetadataNodes.Enabled(n, e)
  {
    match MetadataNodes.Returned(n, e)
    case Some(node) => Some(FreshNode(node))
    case None => if e.MapPage? && e.answer.None? then Some(NoNode) else None
  }

  ghost function Do(w: World, a: Act): World
    requires Allowed(w, a)
  {
    match a
    case Outside(e) => w.(m := Apply(w.m, e))
    case Inside(e) =>
      var m' := match Answer(w.n, e) case Some(choice) => FreeGo(w.m, e.t, choice) case None => w.m;
      World(m', MetadataNodes.After(w.n, e))
  }

  /** The page source does not answer with pages in use. */
  ghost predicate Separate(w: World) {
    forall p :: p in w.n.pages ==> p / PAGE_SIZE !in w.m.pages
  }

  ghost predicate CanRun(w: World, acts: seq<Act>)
    decreases |acts|
  {
    Separate(w) && (acts == [] || (Allowed(w, acts[0]) && CanRun(Do(w, acts[0]), acts[1..])))
  }

  /** The world a run ends in. */
  ghost function End(w: World, acts: seq<Act>): World
    requires CanRun(w, acts)
    decreases |acts|
  {
    if acts == [] then w else End(Do(w, acts[0]), acts[1..])
  }

  /** No page refill overlaps a bump at any moment of the run. */
  ghost predicate AllApart(w: World, acts: seq<Act>)
    requires CanRun(w, acts)
    decreases |acts|
  {
    MetadataNodes.Apart(w.n) && (acts == [] || AllApart(Do(w, acts[0]), acts[1..]))
  }

  // ------------------------------------------------------------------
  // Where no refill overlaps a bump
  // ------------------------------------------------------------------

  /** The magazine machine's nodes are those `alloc_node` gave. */
  ghost predicate WorldInv(w: World, g: Aux) {
    Inv(w.m, g) && MetadataNodes.Inv(w.n) && w.m.nodes == w.n.given
  }

  /** The step of the magazine machine an act is, if it is one. */
  ghost function StepOf(w: World, a: Act): Option<Step>
    requires Allowed(w, a)
  {
    match a
    case Outside(e) => Some(e)
    case Inside(e) => match Answer(w.n, e) case Some(choice) => Some(Go(e.t, choice)) case None => None
  }

  lemma StepKeepsNodes(s: State, e: Step)
    requires Enabled(s, e) && !(e.Go? && e.choice.FreshNode? && PcOf(s, e.t).NeedNode?)
    ensures Apply(s, e).nodes == s.nodes
  {
    hide Shift, Pour, PageBlocks, PageRun, BlocksPerPage, PagesForBlock, BlockSize, BulkRoom, Fresh, FreshRun;
    if e.Go? {
      GoKeepsNodes(s, e.t, e.choice);
    }
  }

  lemma GoKeepsNodes(s: State, t: Tid, choice: Choice)
    requires GoEnabled(s, t, choice) && !(choice.FreshNode? && PcOf(s, t).NeedNode?)
    ensures GoStep(s, t, choice).nodes == s.nodes
  {
    hide GoStep, GoEnabled, AllocGo, PopGo, EmptyGo, FullGo, FreeGo;
    var pc := PcOf(s, t);
    if pc.TryLocal? || pc.TakeSwapped? || pc.TakePopped? || pc.Miss? {
      GoesAlloc(s, t, choice);
      AllocKeepsNodes(s, t, choice);
    } else if pc.PopLoad? || pc.PopNext? || pc.PopCas? {
      GoesPop(s, t, choice);
      PopKeepsNodes(s, t, choice);
    } else if pc.HoldsPopped() {
      GoesEmpty(s, t, choice);
      EmptyKeepsNodes(s, t, choice);
    } else if pc.HoldsNew() {
      GoesFull(s, t, choice);
      FullKeepsNodes(s, t, choice);
    } else {
      assert !pc.Idle? by { NotIdle(s, t, choice); }
      GoesFree(s, t, choice);
      FreeKeepsNodes(s, t, choice);
    }
  }

  lemma NotIdle(s: State, t: Tid, choice: Choice)
    requires GoEnabled(s, t, choice)
    ensures !PcOf(s, t).Idle?
  {
  }

  lemma AllocKeepsNodes(s: State, t: Tid, choice: Choice)
    requires GoEnabled(s, t, choice)
    ensures AllocGo(s, t, choice).nodes == s.nodes
  {
    hide Shift, PageBlocks, PageRun, BlocksPerPage, PagesForBlock, BlockSize, BulkRoom, Fresh, FreshRun, Goto, At;
    hide CarvePage, CarveSingle, TakeStep;
    GotoFacts(s, t);
    match PcOf(s, t)
    case Miss(c) =>
      if choice.BulkPage? {
        PageKeepsNodes(Goto(s, t, Idle), t, c, choice.base);
      } else if choice.SingleRun? {
        SingleKeepsNodes(Goto(s, t, Idle), c, choice.base);
      }
    case _ => TakeKeepsNodes(s, t);
  }

  lemma TakeKeepsNodes(s: State, t: Tid)
    ensures forall c, pc :: TakeStep(s, t, c, pc).nodes == s.nodes
  {
    hide Shift, At;
  }

  lemma PageKeepsNodes(s: State, t: Tid, c: nat, base: nat)
    requires BlocksPerPage(c) > 1
    ensures CarvePage(s, t, c, base).nodes == s.nodes
  {
    hide PageBlocks, PageRun, BlockSize, BulkRoom, Fresh, At;
  }

  lemma SingleKeepsNodes(s: State, c: nat, base: nat)
    ensures CarveSingle(s, c, base).nodes == s.nodes
  {
    hide PageRun, PagesForBlock, Fresh;
  }

  lemma GotoNodes(s: State, t: Tid)
    ensures forall pc :: Goto(s, t, pc).nodes == s.nodes
  {
  }

  lemma PopKeepsNodes(s: State, t: Tid, choice: Choice)
    ensures PopGo(s, t, choice).nodes == s.nodes
  {
    hide Goto, Link, PcOf;
    GotoNodes(s, t);
  }

  lemma EmptyKeepsNodes(s: State, t: Tid, choice: Choice)
    ensures EmptyGo(s, t, choice).nodes == s.nodes
  {
    hide Goto, Link, PcOf, Pour;
    GotoNodes(s, t);
  }

  lemma FullKeepsNodes(s: State, t: Tid, choice: Choice)
    ensures FullGo(s, t, choice).nodes == s.nodes
  {
    hide Goto, Link, PcOf, Pour;
    GotoNodes(s, t);
  }

  lemma FreeKeepsNodes(s: State, t: Tid, choice: Choice)
    requires !(choice.FreshNode? && PcOf(s, t).NeedNode?)
    ensures FreeGo(s, t, choice).nodes == s.nodes
  {
    hide Goto, At, PutStep;
    GotoFacts(s, t);
    PutKeepsNodes(s, t);
  }

  lemma PutKeepsNodes(s: State, t: Tid)
    ensures forall c :: PutStep(s, t, c).nodes == s.nodes
  {
    hide Shift, At;
  }

  /** A step that returns no node leaves the given ones; one that returns a node
      returns a new one. */
  lemma CallFacts(n: MetadataNodes.State, e: MetadataNodes.Step)
    requires MetadataNodes.Inv(n) && MetadataNodes.Enabled(n, e) && MetadataNodes.Inv(MetadataNodes.After(n, e))
    ensures match MetadataNodes.Returned(n, e)
            case Some(node) => node > 0 && node !in n.given && MetadataNodes.After(n, e).given == n.given + {node}
            case None => MetadataNodes.After(n, e).given == n.given
  {
    match MetadataNodes.Returned(n, e)
    case Some(node) =>
      MetadataNodes.ReturnsNew(n, e);
      GivenIsPositive(MetadataNodes.After(n, e), node);
    case None =>
  }

  lemma GivenIsPositive(n: MetadataNodes.State, p: nat)
    requires MetadataNodes.Inv(n) && p in n.given
    ensures p > 0
  {
    hide MetadataNodes.NodeOk;
    MetadataNodes.NodePlace(n, p);
  }

  lemma ActKeeps(w: World, g: Aux, a: Act) returns (g': Aux)
    requires Allowed(w, a) && MetadataNodes.Apart(w.n) && MetadataNodes.Apart(Do(w, a).n) && WorldInv(w, g)
    ensures WorldInv(Do(w, a), g')
    ensures match StepOf(w, a) case Some(e) => Follows(w.m, e, Do(w, a).m) case None => Do(w, a).m == w.m
  {
    hide Inv, MetadataNodes.Inv, MetadataNodes.Apart, MetadataNodes.Enabled, MetadataNodes.After,
        MetadataNodes.Returned, Apply, FreeGo, AuxStep;
    match a
    case Outside(e) =>
      g' := AuxStep(w.m, g, e);
      StepKeepsInv(w.m, g, e);
      StepKeepsNodes(w.m, e);
    case Inside(e) =>
      MetadataNodes.StepKeepsInv(w.n, e);
      CallFacts(w.n, e);
      if Answer(w.n, e).Some? {
        g' := AnswerKeeps(w.m, g, e.t, Answer(w.n, e).value);
      } else {
        g' := g;
      }
  }

  /** What `alloc_node` returns reaches `free`, and only then `free` goes on: a node
      is filled next, and without one the block is put away at once. */
  lemma ReturnReachesFree(w: World, e: MetadataNodes.Step)
    requires Allowed(w, Inside(e)) && !e.Call?
    ensures MetadataNodes.PcOf(Do(w, Inside(e)).n, e.t).Idle? <==> PcOf(Do(w, Inside(e)).m, e.t) != PcOf(w.m, e.t)
    ensures var c, pc' := PcOf(w.m, e.t).c, PcOf(Do(w, Inside(e)).m, e.t);
            match MetadataNodes.Returned(w.n, e)
            case Some(node) => pc' == Fill(c, node)
            case None => MetadataNodes.PcOf(Do(w, Inside(e)).n, e.t).Idle? ==> pc' == Idle && e.MapPage?
  {
    hide Goto, PutStep, MetadataNodes.Aligned;
    MetadataNodes.CallEnds(w.n, e, e.t);
    GotoFacts(w.m, e.t);
    PutsDown(w.m, e.t, PcOf(w.m, e.t).c);
  }

  lemma PutsDown(s: State, t: Tid, c: nat)
    ensures PcOf(PutStep(s, t, c), t) == Idle
  {
    hide Shift, At;
  }

  lemma AnswerKeeps(s: State, g: Aux, t: Tid, choice: Choice) returns (g': Aux)
    requires PcOf(s, t).NeedNode? && Inv(s, g)
    requires choice.NoNode? || (choice.FreshNode? && choice.node > 0 && choice.node !in s.nodes)
    ensures Inv(FreeGo(s, t, choice), g') && Follows(s, Go(t, choice), FreeGo(s, t, choice))
    ensures FreeGo(s, t, choice).nodes == s.nodes + (if choice.FreshNode? then {choice.node} else {})
  {
    hide Inv, AuxStep, GoStep, Shift;
    GoesFree(s, t, choice);
    StepKeepsInv(s, g, Go(t, choice));
    g' := AuxStep(s, g, Go(t, choice));
  }

  /** A run goes on as a run of the magazine machine. */
  lemma {:induction false} RunProjects(w: World, g: Aux, acts: seq<Act>, states: seq<State>, steps: seq<Step>)
      returns (states': seq<State>, steps': seq<Step>, g': Aux)
    requires WorldInv(w, g) && CanRun(w, acts) && AllApart(w, acts) && IsRun(states, steps) && states[|steps|] == w.m
    ensures WorldInv(End(w, acts), g') && IsRun(states', steps') && states'[|steps'|] == End(w, acts).m
    decreases |acts|
  {
    hide WorldInv, Allowed, Do, StepOf, MetadataNodes.Apart, Follows, Separate;
    if acts == [] {
      states', steps', g' := states, steps, g;
    } else {
      var w1 := Do(w, acts[0]);
      var g1 := ActKeeps(w, g, acts[0]);
      var more, steps1 := states, steps;
      if StepOf(w, acts[0]).Some? {
        ExtendRun(states, steps, StepOf(w, acts[0]).value, w1.m);
        more, steps1 := states + [w1.m], steps + [StepOf(w, acts[0]).value];
      }
      states', steps', g' := RunProjects(w1, g1, acts[1..], more, steps1);
    }
  }

  lemma StartInv()
    ensures WorldInv(START, AUX0) && IsRun([INITIAL], [])
  {
    hide Inv, MetadataNodes.Inv;
    InitialInv();
    MetadataNodes.InitialInv();
  }

  /** A run in which no page refill overlaps a bump is a run of the magazine
      machine: what holds in that machine's runs holds in it. */
  lemma ApartRunsAreRuns(acts: seq<Act>) returns (states: seq<State>, steps: seq<Step>)
    requires CanRun(START, acts) && AllApart(START, acts)
    ensures IsRun(states, steps) && states[|steps|] == End(START, acts).m
  {
    hide WorldInv, CanRun, AllApart, End;
    StartInv();
    ghost var g;
    states, steps, g := RunProjects(START, AUX0, acts, [INITIAL], []);
  }

  /** In such a run the memory of a node never meets a block. */
  lemma NodesApartFromBlocks(acts: seq<Act>, p: nat, b: nat)
    requires CanRun(START, acts) && AllApart(START, acts)
    requires p in End(START, acts).n.given && b in End(START, acts).m.carved
    ensures Apart(p, MetadataNodes.NODE_SIZE, b, BlockSize(End(START, acts).m.carved[b]))
  {
    hide CanRun, AllApart, End, BlockSize, Apart;
    StartInv();
    var w := End(START, acts);
    EndSeparate(START, acts);
    var states, steps, g := RunProjects(START, AUX0, acts, [INITIAL], []);
    NodeInPage(w.n, p);
    BlockMapped(w.m, g, b);
    PagesKeepApart(w, p, b, BlockSize(w.m.carved[b]));
  }

  lemma {:induction false} EndSeparate(w: World, acts: seq<Act>)
    requires CanRun(w, acts)
    ensures Separate(End(w, acts))
    decreases |acts|
  {
    hide Separate, Allowed, Do;
    if acts != [] {
      EndSeparate(Do(w, acts[0]), acts[1..]);
    }
  }

  lemma NodeInPage(n: MetadataNodes.State, p: nat)
    requires MetadataNodes.Inv(n) && p in n.given
    ensures MetadataNodes.PageOf(p) in n.pages && p + MetadataNodes.NODE_SIZE <= MetadataNodes.PageOf(p) + PAGE_SIZE
  {
    hide MetadataNodes.NodeOk;
    MetadataNodes.NodePlace(n, p);
  }

  lemma BlockMapped(s: State, g: Aux, b: nat)
    requires Inv(s, g) && b in s.carved
    ensures Mapped(s.pages, b, BlockSize(s.carved[b]))
  {
    hide BlocksOk, StacksOk, NodesOk, ThreadsOk, SizesOk, BlockSize, Mapped;
  }

  lemma PagesKeepApart(w: World, p: nat, b: nat, size: nat)
    requires Separate(w) && MetadataNodes.PageOf(p) in w.n.pages && Mapped(w.m.pages, b, size)
    requires p + MetadataNodes.NODE_SIZE <= MetadataNodes.PageOf(p) + PAGE_SIZE
    ensures Apart(p, MetadataNodes.NODE_SIZE, b, size)
  {
    var page := MetadataNodes.PageOf(p) / PAGE_SIZE;
    assert page !in w.m.pages;
    assert !(b / PAGE_SIZE <= page && page * PAGE_SIZE < b + size);
  }

  // ------------------------------------------------------------------
  // One freeing thread
  // ------------------------------------------------------------------

  /** Only threads below `n` free blocks, and so need nodes. */
  predicate FreerBelow(a: Act, n: nat) {
    match a
    case Outside(Free(t, _)) => t < n
    case Outside(_) => true
    case Inside(e) => e.t < n
  }

  ghost predicate FreersBelow(acts: seq<Act>, n: nat) {
    forall i :: 0 <= i < |acts| ==> FreerBelow(acts[i], n)
  }

  lemma {:induction false} OneFreerIsApart(w: World, acts: seq<Act>)
    requires MetadataNodes.OnlyZero(w.n) && CanRun(w, acts) && FreersBelow(acts, 1)
    ensures AllApart(w, acts)
    decreases |acts|
  {
    hide MetadataNodes.OnlyZero, MetadataNodes.Apart, MetadataNodes.Enabled, MetadataNodes.After, Separate;
    hide Enabled, Apply, FreeGo, Answer;
    MetadataNodes.OneIsApart(w.n);
    if acts != [] {
      var a, rest := acts[0], acts[1..];
      if a.Inside? {
        MetadataNodes.ZeroStays(w.n, a.call);
      }
      assert forall i :: 0 <= i < |rest| ==> rest[i] == acts[i + 1];
      OneFreerIsApart(Do(w, a), rest);
    }
  }

  // ------------------------------------------------------------------
  // A repeated node
  // ------------------------------------------------------------------

  /** A block that was carved and is nowhere any more. */
  ghost predicate Lost(s: State, b: nat) {
    b in s.carved && forall l :: b !in At(s.box, l)
  }

  ghost predicate NothingLost(s: State) {
    forall b :: !Lost(s, b)
  }

  /** A thread that is given a node still in use overwrites its magazine: every
      block in it is lost. */
  lemma RepeatLosesBlocks(s: State, g: Aux, t: Tid, c: nat, node: Ptr)
    requires PcOf(s, t) == NeedNode(c) && Inv(s, g)
    ensures var s1 := FreeGo(s, t, FreshNode(node));
            forall b :: b in NodeMag(s, node) ==> Lost(FullGo(s1, t, Proceed), b)
  {
    hide StacksOk, NodesOk, ThreadsOk, SizesOk, MemoryOk, Classed, Distinct, Pour;
    Overwritten(s, t, c, node);
    hide FreeGo, FullGo;
    forall b | b in NodeMag(s, node)
      ensures Lost(FullGo(FreeGo(s, t, FreshNode(node)), t, Proceed), b)
    {
      assert b in g.place && g.place[b] == InNode(node) && b in s.carved;
      PouredOver(s.box, g.place, InFree(t, c), InNode(node), b);
    }
  }

  lemma Overwritten(s: State, t: Tid, c: nat, node: Ptr)
    requires PcOf(s, t) == NeedNode(c)
    ensures var s2 := FullGo(FreeGo(s, t, FreshNode(node)), t, Proceed);
            s2.box == Pour(s.box, InFree(t, c), InNode(node)) && s2.carved == s.carved
  {
    hide Pour, Goto;
    GotoFacts(s, t);
    var s1 := FreeGo(s, t, FreshNode(node));
    assert PcOf(s1, t) == Fill(c, node) && s1.box == s.box && s1.carved == s.carved;
    hide FreeGo;
    GotoFacts(s1, t);
  }

  lemma PouredOver(box: Boxes, place: map<nat, Place>, from: Place, to: Place, b: nat)
    requires Placed(box, place) && b in place && place[b] == to && from != to
    ensures forall l :: b !in At(Pour(box, from, to), l)
  {
    hide Distinct;
    forall l
      ensures b !in At(Pour(box, from, to), l)
    {
      assert b in At(box, l) ==> l == to;
      assert b !in At(box, from);
    }
  }
}
