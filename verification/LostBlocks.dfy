/** How many threads may free in the default build: with one no block is ever
    lost, with two there is a run that loses 64. */
module LostBlocks {
  import opened Common
  import opened BlockLayout
  import opened MagazineMachine
  import opened MagazineProof
  import opened MagazineSafety
  import opened DefaultBuild
  import MetadataNodes

  /** In every run in which only threads below `n` free, every carved block is
      somewhere. */
  ghost predicate SafeFor(n: nat) {
    forall acts: seq<Act> :: CanRun(START, acts) && FreersBelow(acts, n) ==> NothingLost(End(START, acts).m)
  }

  lemma OneFreerLosesNothing(acts: seq<Act>)
    requires CanRun(START, acts) && FreersBelow(acts, 1)
    ensures NothingLost(End(START, acts).m)
  {
    hide CanRun, End, AllApart;
    OneFreerIsApart(START, acts);
    var states, steps := ApartRunsAreRuns(acts);
    EachBlockInOnePlace(states, steps, |steps|);
  }

  // ------------------------------------------------------------------
  // Reaching worlds with two freeing threads
  // ------------------------------------------------------------------

  ghost predicate Reachable(w: World) {
    exists acts: seq<Act> :: CanRun(START, acts) && FreersBelow(acts, 2) && End(START, acts) == w
  }

  lemma {:induction false} RunsOn(w: World, acts: seq<Act>, a: Act)
    requires CanRun(w, acts) && Allowed(End(w, acts), a) && Separate(Do(End(w, acts), a))
    ensures CanRun(w, acts + [a]) && End(w, acts + [a]) == Do(End(w, acts), a)
    decreases |acts|
  {
    hide Separate, Allowed, Do;
    var more := acts + [a];
    if acts == [] {
      assert more[1..] == [];
      assert CanRun(Do(w, a), []);
    } else {
      assert more[1..] == acts[1..] + [a];
      RunsOn(Do(w, acts[0]), acts[1..], a);
    }
  }

  lemma ReachNext(w: World, a: Act)
    requires Reachable(w) && Allowed(w, a) && FreerBelow(a, 2) && Separate(Do(w, a))
    ensures Reachable(Do(w, a))
  {
    hide CanRun, End, Separate, Allowed, Do, FreerBelow;
    var acts: seq<Act> :| CanRun(START, acts) && FreersBelow(acts, 2) && End(START, acts) == w;
    RunsOn(START, acts, a);
    assert FreersBelow(acts + [a], 2);
  }

  /** The largest class, whose blocks are mapped one by one. */
  const BIG: nat := 12

  /** All blocks are of the largest class, and off the first pages, which the nodes
      get. */
  ghost predicate Setting(w: World) {
    && Reachable(w)
    && (exists g :: Inv(w.m, g))
    && (forall b :: b in w.m.carved ==> w.m.carved[b] == BIG)
    && (forall p :: p in w.m.pages ==> p >= 3)
    && (forall p :: p in w.n.pages ==> p == 4096 || p == 8192)
    && w.m.nodes == w.n.given
  }

  lemma SettingSeparate(w: World)
    requires forall p :: p in w.m.pages ==> p >= 3
    requires forall p :: p in w.n.pages ==> p == 4096 || p == 8192
    ensures Separate(w)
  {
  }

  /** A step of a thread that maps nothing. */
  lemma Steps(w: World, e: Step)
    requires Enabled(w.m, e) && !(e.Go? && PcOf(w.m, e.t).NeedNode?) && FreerBelow(Outside(e), 2)
    requires Apply(w.m, e).carved == w.m.carved && Apply(w.m, e).pages == w.m.pages && Setting(w)
    ensures Setting(w.(m := Apply(w.m, e)))
  {
    hide Reachable, Inv, Enabled, Apply;
    var w' := w.(m := Apply(w.m, e));
    var g :| Inv(w.m, g);
    StepKeepsInv(w.m, g, e);
    StepKeepsNodes(w.m, e);
    SettingSeparate(w');
    ReachNext(w, Outside(e));
  }

  /** A step inside `alloc_node` that does not return. */
  lemma Calls(w: World, e: MetadataNodes.Step, n': MetadataNodes.State)
    requires MetadataNodes.Enabled(w.n, e) && PcOf(w.m, e.t).NeedNode? && e.t < 2 && Answer(w.n, e) == None
    requires n' == MetadataNodes.After(w.n, e) && n'.given == w.n.given
             && (forall p :: p in n'.pages ==> p == 4096 || p == 8192)
    requires Setting(w)
    ensures Setting(w.(n := n'))
  {
    hide Reachable, Inv, MetadataNodes.Enabled, MetadataNodes.After, Answer;
    SettingSeparate(w.(n := n'));
    ReachNext(w, Inside(e));
  }

  /** A step that makes `alloc_node` return a node not given before. */
  lemma Returns(w: World, e: MetadataNodes.Step, n': MetadataNodes.State, node: nat)
    requires MetadataNodes.Enabled(w.n, e) && PcOf(w.m, e.t).NeedNode? && e.t < 2
    requires Answer(w.n, e) == Some(FreshNode(node)) && node > 0 && node !in w.n.given
    requires n' == MetadataNodes.After(w.n, e) && n'.given == w.n.given + {node} && n'.pages == w.n.pages
    requires Setting(w)
    ensures Setting(World(FreeGo(w.m, e.t, FreshNode(node)), n'))
  {
    hide Reachable, Inv, MetadataNodes.Enabled, MetadataNodes.After, Answer;
    var g :| Inv(w.m, g);
    var w' := World(FreeGo(w.m, e.t, FreshNode(node)), n');
    var g' := AnswerKeeps(w.m, g, e.t, FreshNode(node));
    assert Inv(w'.m, g');
    SettingSeparate(w');
    ReachNext(w, Inside(e));
  }

  // ------------------------------------------------------------------
  // What a thread's own steps change
  // ------------------------------------------------------------------

  /** Nothing but the place of thread `t`, the live blocks, its blocks and those of
      `node`, if that is one, changed. */
  ghost predicate Kept(s: State, s': State, t: Tid, node: Ptr) {
    && s'.carved == s.carved && s'.pages == s.pages && s'.nodes == s.nodes
    && (forall u: Tid :: u != t ==> PcOf(s', u) == PcOf(s, u) && FreeMag(s', u, BIG) == FreeMag(s, u, BIG))
    && (forall n :: node == NULL || n != node ==> NodeMag(s', n) == NodeMag(s, n))
  }

  lemma KeptBoth(s: State, s1: State, s2: State, t: Tid, node: Ptr)
    requires Kept(s, s1, t, node) && Kept(s1, s2, t, node)
    ensures Kept(s, s2, t, node)
  {
    hide PcOf, At;
  }

  lemma KeptMore(s: State, s': State, t: Tid, node: Ptr)
    requires Kept(s, s', t, NULL)
    ensures Kept(s, s', t, node)
  {
    hide PcOf, At;
  }

  function Count(s: State, t: Tid): nat { |FreeMag(s, t, BIG)| }

  /** A block is taken in hand. */
  lemma TakesInHand(s: State, t: Tid)
    requires PcOf(s, t).Idle? && LiveBlocks(s) != [] && LiveBlocks(s)[0] in s.carved
             && s.carved[LiveBlocks(s)[0]] == BIG
    ensures Enabled(s, Free(t, 0))
    ensures var s' := Apply(s, Free(t, 0));
            && PcOf(s', t) == TryPut(BIG) && |LiveBlocks(s')| == |LiveBlocks(s)| - 1
            && Count(s', t) == Count(s, t) && Kept(s, s', t, NULL)
  {
  }

  /** It goes into a free magazine with room. */
  lemma PutsAway(s: State, t: Tid)
    requires Count(s, t) < MAGAZINE_CAPACITY && At(s.box, InHand(t, BIG)) != []
    ensures var s' := PutStep(s, t, BIG);
            && PcOf(s', t) == Idle && LiveBlocks(s') == LiveBlocks(s)
            && Count(s', t) == Count(s, t) + 1 && Kept(s, s', t, NULL)
  {
  }

  /** The thread moves on. */
  lemma MovesOn(s: State, t: Tid, pc: Pc)
    ensures var s' := Goto(s, t, pc);
            && PcOf(s', t) == pc && s'.box == s.box && Kept(s, s', t, NULL)
  {
  }

  /** A new node takes over the free magazine. */
  lemma FillsNode(s: State, t: Tid, node: Ptr)
    requires PcOf(s, t) == Fill(BIG, node) && node != NULL
    ensures var s' := FullGo(s, t, Proceed);
            && PcOf(s', t) == FullLoad(BIG, node) && LiveBlocks(s') == LiveBlocks(s)
            && Count(s', t) == 0 && NodeMag(s', node) == FreeMag(s, t, BIG) && Kept(s, s', t, node)
            && At(s'.box, InHand(t, BIG)) == At(s.box, InHand(t, BIG))
  {
  }

  lemma FreeGoes(s: State, t: Tid)
    requires PcOf(s, t) == TryPut(BIG) || PcOf(s, t) == PutLocal(BIG)
    ensures Enabled(s, Go(t, Proceed))
    ensures Apply(s, Go(t, Proceed)) ==
            if PcOf(s, t).PutLocal? || Count(s, t) < MAGAZINE_CAPACITY then PutStep(s, t, BIG)
            else Goto(s, t, NeedNode(BIG))
  {
    hide GoStep, PutStep;
    GoesFree(s, t, Proceed);
  }

  lemma FullGoes(s: State, t: Tid)
    requires PcOf(s, t).HoldsNew()
    ensures Enabled(s, Go(t, Proceed)) && Apply(s, Go(t, Proceed)) == FullGo(s, t, Proceed)
  {
    hide GoStep, FullGo;
    GoesFull(s, t, Proceed);
  }

  // ------------------------------------------------------------------
  // Freeing until a node is needed, and publishing it
  // ------------------------------------------------------------------

  lemma InHandNow(s: State, t: Tid)
    requires PcOf(s, t).Freeing() && PcOf(s, t).c == BIG && exists g :: Inv(s, g)
    ensures |At(s.box, InHand(t, BIG))| == 1
  {
    hide BlocksOk, StacksOk, NodesOk, SizesOk, MemoryOk, PointOk;
    var g :| Inv(s, g);
    assert ThreadOk(s, g, t);
  }

  lemma LiveIsCarved(s: State)
    requires LiveBlocks(s) != [] && exists g :: Inv(s, g)
    ensures LiveBlocks(s)[0] in s.carved
  {
    hide StacksOk, NodesOk, SizesOk, MemoryOk, ThreadsOk, Classed, Distinct;
    var g :| Inv(s, g);
    assert LiveBlocks(s)[0] in At(s.box, Live);
  }

  /** `free` up to the look at the free magazine. */
  lemma StartsFree(w: World, t: Tid) returns (w': World)
    requires t < 2 && PcOf(w.m, t).Idle? && LiveBlocks(w.m) != [] && Setting(w)
    ensures w'.n == w.n && PcOf(w'.m, t) == TryPut(BIG) && |LiveBlocks(w'.m)| == |LiveBlocks(w.m)| - 1
    ensures Count(w'.m, t) == Count(w.m, t) && Kept(w.m, w'.m, t, NULL)
    ensures Setting(w')
  {
    hide Reachable, Inv, Enabled, Apply, Kept;
    LiveIsCarved(w.m);
    TakesInHand(w.m, t);
    w' := w.(m := Apply(w.m, Free(t, 0)));
    assert w'.m.carved == w.m.carved && w'.m.pages == w.m.pages by { KeptMemory(w.m, w'.m, t, NULL); }
    Steps(w, Free(t, 0));
  }

  lemma KeptMemory(s: State, s': State, t: Tid, node: Ptr)
    requires Kept(s, s', t, node)
    ensures s'.carved == s.carved && s'.pages == s.pages && s'.nodes == s.nodes
  {
  }

  lemma FreesOne(w: World, t: Tid) returns (w': World)
    requires t < 2 && PcOf(w.m, t).Idle? && LiveBlocks(w.m) != [] && Count(w.m, t) < MAGAZINE_CAPACITY && Setting(w)
    ensures w'.n == w.n && PcOf(w'.m, t) == Idle && |LiveBlocks(w'.m)| == |LiveBlocks(w.m)| - 1
    ensures Count(w'.m, t) == Count(w.m, t) + 1 && Kept(w.m, w'.m, t, NULL)
    ensures Setting(w')
  {
    hide Reachable, Inv, Enabled, Apply, PutStep, Kept, At;
    var w1 := StartsFree(w, t);
    InHandNow(w1.m, t);
    FreeGoes(w1.m, t);
    PutsAway(w1.m, t);
    w' := w1.(m := Apply(w1.m, Go(t, Proceed)));
    KeptMemory(w1.m, w'.m, t, NULL);
    Steps(w1, Go(t, Proceed));
    KeptBoth(w.m, w1.m, w'.m, t, NULL);
  }

  /** A full free magazine makes the thread ask for a node. */
  lemma AsksNode(w: World, t: Tid) returns (w': World)
    requires t < 2 && PcOf(w.m, t).Idle? && LiveBlocks(w.m) != [] && Count(w.m, t) == MAGAZINE_CAPACITY && Setting(w)
    ensures w'.n == w.n && PcOf(w'.m, t) == NeedNode(BIG) && |LiveBlocks(w'.m)| == |LiveBlocks(w.m)| - 1
    ensures Kept(w.m, w'.m, t, NULL) && Setting(w')
  {
    hide Reachable, Inv, Enabled, Apply, Kept, Goto;
    var w1 := StartsFree(w, t);
    FreeGoes(w1.m, t);
    MovesOn(w1.m, t, NeedNode(BIG));
    w' := w1.(m := Apply(w1.m, Go(t, Proceed)));
    KeptMemory(w1.m, w'.m, t, NULL);
    Steps(w1, Go(t, Proceed));
    KeptBoth(w.m, w1.m, w'.m, t, NULL);
  }

  lemma {:induction false} FillsUp(w: World, t: Tid) returns (w': World)
    requires t < 2 && PcOf(w.m, t).Idle? && Count(w.m, t) <= MAGAZINE_CAPACITY
             && |LiveBlocks(w.m)| + Count(w.m, t) > MAGAZINE_CAPACITY && Setting(w)
    ensures w'.n == w.n && PcOf(w'.m, t) == NeedNode(BIG)
    ensures |LiveBlocks(w'.m)| == |LiveBlocks(w.m)| + Count(w.m, t) - MAGAZINE_CAPACITY - 1
    ensures Kept(w.m, w'.m, t, NULL) && Setting(w')
    decreases MAGAZINE_CAPACITY - Count(w.m, t)
  {
    hide Setting, Kept, At;
    if Count(w.m, t) == MAGAZINE_CAPACITY {
      w' := AsksNode(w, t);
    } else {
      var w1 := FreesOne(w, t);
      w' := FillsUp(w1, t);
      KeptBoth(w.m, w1.m, w'.m, t, NULL);
    }
  }

  /** A step on the way of a filled node to the full stack. */
  lemma PushesOn(w: World, t: Tid, node: Ptr)
    requires t < 2 && PcOf(w.m, t).HoldsNew() && Kept(w.m, FullGo(w.m, t, Proceed), t, node) && Setting(w)
    ensures Setting(w.(m := FullGo(w.m, t, Proceed)))
  {
    hide Reachable, Inv, Enabled, Apply, FullGo, Kept;
    FullGoes(w.m, t);
    KeptMemory(w.m, FullGo(w.m, t, Proceed), t, node);
    Steps(w, Go(t, Proceed));
  }

  lemma FullFacts(s: State, t: Tid, node: Ptr)
    requires PcOf(s, t).FullLoad? || PcOf(s, t).FullLink?
             || (PcOf(s, t).FullCas? && PcOf(s, t).cur == FullHead(s, PcOf(s, t).c))
    ensures var s', pc := FullGo(s, t, Proceed), PcOf(s, t);
            && s'.box == s.box && Kept(s, s', t, node) && (!pc.FullCas? ==> s'.fullHead == s.fullHead)
            && PcOf(s', t) == (if pc.FullLoad? then FullLink(pc.c, pc.node, FullHead(s, pc.c))
                               else if pc.FullLink? then FullCas(pc.c, pc.node, pc.cur) else PutLocal(pc.c))
  {
  }

  /** From having a node to the end of `free`. */
  lemma Publishes(w: World, t: Tid, node: Ptr) returns (w': World)
    requires t < 2 && node != NULL && PcOf(w.m, t) == Fill(BIG, node) && Setting(w)
    ensures w'.n == w.n && PcOf(w'.m, t) == Idle && LiveBlocks(w'.m) == LiveBlocks(w.m) && Count(w'.m, t) == 1
    ensures NodeMag(w'.m, node) == FreeMag(w.m, t, BIG) && Kept(w.m, w'.m, t, node) && Setting(w')
  {
    hide Reachable, Inv, Enabled, Apply, FullGo, Kept, At, PutStep;
    FillsNode(w.m, t, node);
    PushesOn(w, t, node);
    var w1 := w.(m := FullGo(w.m, t, Proceed));
    var w4 := Pushes(w1, t, node);
    KeptBoth(w.m, w1.m, w4.m, t, node);
    InHandNow(w4.m, t);
    FreeGoes(w4.m, t);
    PutsAway(w4.m, t);
    w' := w4.(m := PutStep(w4.m, t, BIG));
    KeptMemory(w4.m, w'.m, t, NULL);
    Steps(w4, Go(t, Proceed));
    KeptNode(w4.m, w'.m, t, node);
    KeptMore(w4.m, w'.m, t, node);
    KeptBoth(w.m, w4.m, w'.m, t, node);
  }

  lemma KeptNode(s: State, s': State, t: Tid, node: Ptr)
    requires Kept(s, s', t, NULL)
    ensures NodeMag(s', node) == NodeMag(s, node)
  {
  }

  lemma Pushes(w: World, t: Tid, node: Ptr) returns (w': World)
    requires t < 2 && PcOf(w.m, t) == FullLoad(BIG, node) && Setting(w)
    ensures w'.n == w.n && PcOf(w'.m, t) == PutLocal(BIG) && w'.m.box == w.m.box && Kept(w.m, w'.m, t, node)
    ensures Setting(w')
  {
    hide Setting, FullGo, Kept;
    FullFacts(w.m, t, node);
    PushesOn(w, t, node);
    var w1 := w.(m := FullGo(w.m, t, Proceed));
    FullFacts(w1.m, t, node);
    PushesOn(w1, t, node);
    var w2 := w1.(m := FullGo(w1.m, t, Proceed));
    FullFacts(w2.m, t, node);
    PushesOn(w2, t, node);
    w' := w2.(m := FullGo(w2.m, t, Proceed));
    KeptBoth(w.m, w1.m, w2.m, t, node);
    KeptBoth(w.m, w2.m, w'.m, t, node);
  }

  // ------------------------------------------------------------------
  // A stock of live blocks
  // ------------------------------------------------------------------

  /** `k` blocks were allocated by thread 0, on pages below `top`, and none freed. */
  ghost predicate Stocked(w: World, k: nat, top: nat) {
    && Setting(w) && w.n == MetadataNodes.INITIAL && Supply(w.m, k)
    && top >= 3 && (forall p :: p in w.m.pages ==> p < top)
  }

  ghost predicate Supply(s: State, k: nat) {
    && |LiveBlocks(s)| == k && FullHead(s, BIG) == NULL && AllocMag(s, 0, BIG) == []
    && forall t: Tid :: PcOf(s, t) == Idle && FreeMag(s, t, BIG) == []
  }

  lemma StartStocked()
    ensures Stocked(START, 0, 3)
  {
    InitialInv();
    assert CanRun(START, []) && FreersBelow([], 2) && End(START, []) == START;
    assert Reachable(START);
  }

  lemma AllocGoes(s: State, pc: Pc)
    requires AllocMag(s, 0, BIG) == [] && FreeMag(s, 0, BIG) == [] && FullHead(s, BIG) == NULL
    requires pc == TryLocal(BIG) || pc == PopLoad(BIG)
    ensures var s1 := Goto(s, 0, pc);
            && Enabled(s1, Go(0, Proceed))
            && Apply(s1, Go(0, Proceed)) == Goto(s, 0, if pc.TryLocal? then PopLoad(BIG) else Miss(BIG))
  {
    var s1 := Goto(s, 0, pc);
    if pc.TryLocal? {
      GoesAlloc(s1, 0, Proceed);
    } else {
      GoesPop(s1, 0, Proceed);
    }
    hide GoStep;
    assert forall pc' :: Goto(s1, 0, pc') == Goto(s, 0, pc') by { GotoTwice(s, 0, pc); }
  }

  lemma GotoTwice(s: State, t: Tid, pc: Pc)
    ensures forall pc' :: Goto(Goto(s, t, pc), t, pc') == Goto(s, t, pc')
  {
    forall pc'
      ensures Goto(Goto(s, t, pc), t, pc') == Goto(s, t, pc')
    {
      assert s.pc[t := pc][t := pc'] == s.pc[t := pc'];
    }
  }

  /** Thread 0 misses everywhere. */
  lemma Misses(w: World) returns (w': World)
    requires Setting(w) && PcOf(w.m, 0) == Idle
    requires AllocMag(w.m, 0, BIG) == [] && FreeMag(w.m, 0, BIG) == [] && FullHead(w.m, BIG) == NULL
    ensures w' == w.(m := Goto(w.m, 0, Miss(BIG))) && Setting(w')
  {
    hide Setting, Goto, GoEnabled, GoStep, At, Link;
    GotoFacts(w.m, 0);
    var w1, w2 := w.(m := Goto(w.m, 0, TryLocal(BIG))), w.(m := Goto(w.m, 0, PopLoad(BIG)));
    Steps(w, Malloc(0, BIG));
    AllocGoes(w.m, TryLocal(BIG));
    Steps(w1, Go(0, Proceed));
    AllocGoes(w.m, PopLoad(BIG));
    Steps(w2, Go(0, Proceed));
    w' := w.(m := Goto(w.m, 0, Miss(BIG)));
  }

  lemma MissGoes(s: State, base: nat)
    requires FreshRun(s, base, PagesForBlock(BIG))
    ensures var s1 := Goto(s, 0, Miss(BIG));
            && Enabled(s1, Go(0, SingleRun(base)))
            && Apply(s1, Go(0, SingleRun(base))) == CarveSingle(Goto(s, 0, Idle), BIG, base)
  {
    hide PageRun, PagesForBlock, CarveSingle, GoStep;
    var s1 := Goto(s, 0, Miss(BIG));
    assert GoEnabled(s1, 0, SingleRun(base));
    GoesAlloc(s1, 0, SingleRun(base));
    GotoTwice(s, 0, Miss(BIG));
  }

  /** One more block, on pages not used so far. */
  lemma StocksOne(w: World, k: nat, top: nat) returns (w': World, top': nat)
    requires Stocked(w, k, top)
    ensures Stocked(w', k + 1, top')
  {
    hide Setting, Goto, Enabled, Apply, PageRun, PagesForBlock;
    var base, n := top * PAGE_SIZE, PagesForBlock(BIG);
    PagesAbove(w.m.pages, top, n);
    MissGoes(w.m, base);
    var w1 := Misses(w) by { assert PcOf(w.m, 0) == Idle && FreeMag(w.m, 0, BIG) == []; }
    var m' := CarveSingle(Goto(w.m, 0, Idle), BIG, base);
    CarvesOne(w.m, base, k);
    assert PcOf(w1.m, 0) == Miss(BIG) && w1.m.carved == w.m.carved && w1.m.pages == w.m.pages by { GotoFacts(w.m, 0); }
    MapsRun(w1, base, m');
    w', top' := w1.(m := m'), top + n;
  }

  lemma PagesAbove(pages: set<nat>, top: nat, n: nat)
    requires forall p :: p in pages ==> p < top
    ensures top * PAGE_SIZE / PAGE_SIZE == top && PageRun(top * PAGE_SIZE, n) !! pages
    ensures forall p :: p in PageRun(top * PAGE_SIZE, n) ==> top <= p < top + n
  {
  }

  lemma CarvesOne(s: State, base: nat, k: nat)
    requires Supply(s, k)
    ensures var s' := CarveSingle(Goto(s, 0, Idle), BIG, base);
            && Supply(s', k + 1) && s'.carved == s.carved[base := BIG]
            && s'.pages == s.pages + PageRun(base, PagesForBlock(BIG))
  {
    hide PageRun, PagesForBlock;
    var s' := CarveSingle(Goto(s, 0, Idle), BIG, base);
    forall t: Tid
      ensures PcOf(s', t) == Idle && FreeMag(s', t, BIG) == []
    {
      assert PcOf(s, t) == Idle && FreeMag(s, t, BIG) == [];
    }
  }

  lemma MapsRun(w: World, base: nat, m': State)
    requires base / PAGE_SIZE >= 3 && Enabled(w.m, Go(0, SingleRun(base))) && PcOf(w.m, 0) == Miss(BIG)
    requires m' == Apply(w.m, Go(0, SingleRun(base)))
    requires m'.carved == w.m.carved[base := BIG] && m'.pages == w.m.pages + PageRun(base, PagesForBlock(BIG))
    requires Setting(w)
    ensures Setting(w.(m := m'))
  {
    hide Reachable, Inv, Apply, GoEnabled, PagesForBlock;
    var e := Go(0, SingleRun(base));
    var w' := w.(m := m');
    var g :| Inv(w.m, g);
    StepKeepsInv(w.m, g, e);
    StepKeepsNodes(w.m, e);
    SettingSeparate(w');
    ReachNext(w, Outside(e));
  }

  lemma {:induction false} Stocks(w: World, k: nat, top: nat, n: nat) returns (w': World, top': nat)
    requires Stocked(w, k, top) && k <= n
    ensures Stocked(w', n, top')
    decreases n - k
  {
    hide Stocked;
    w', top' := w, top;
    if k < n {
      w', top' := StocksOne(w, k, top);
      w', top' := Stocks(w', k + 1, top', n);
    }
  }

  // ------------------------------------------------------------------
  // Calls of `alloc_node`
  // ------------------------------------------------------------------

  /** Only thread `t` moved inside `alloc_node`. */
  ghost predicate Went(n: MetadataNodes.State, n': MetadataNodes.State, t: Tid, pc: MetadataNodes.Pc) {
    && MetadataNodes.PcOf(n', t) == pc
    && forall u: Tid :: u != t ==> MetadataNodes.PcOf(n', u) == MetadataNodes.PcOf(n, u)
  }

  /** The call reads the bump offset. */
  lemma LoadsOffset(w: World, t: Tid) returns (w': World)
    requires t < 2 && PcOf(w.m, t).NeedNode? && MetadataNodes.PcOf(w.n, t).Idle? && Setting(w)
    ensures w' == w.(n := w.n.(pc := w'.n.pc)) && Went(w.n, w'.n, t, MetadataNodes.Loaded(w.n.offset)) && Setting(w')
  {
    hide Setting;
    assert SettingPages(w.n) by { PagesOfSetting(w); }
    var w1 := w.(n := MetadataNodes.After(w.n, MetadataNodes.Call(t)));
    Calls(w, MetadataNodes.Call(t), w1.n);
    w' := w1.(n := MetadataNodes.After(w1.n, MetadataNodes.Load(t)));
    Calls(w1, MetadataNodes.Load(t), w'.n);
  }

  ghost predicate SettingPages(n: MetadataNodes.State) {
    forall p :: p in n.pages ==> p == 4096 || p == 8192
  }

  lemma PagesOfSetting(w: World)
    requires Setting(w)
    ensures SettingPages(w.n)
  {
    hide Reachable, Inv;
  }

  /** Without room for a node, it maps a page. */
  lemma MapsPage(w: World, t: Tid, mine: nat) returns (w': World)
    requires t < 2 && PcOf(w.m, t).NeedNode? && MetadataNodes.PcOf(w.n, t).Idle? && w.n.offset == PAGE_SIZE
    requires (mine == 4096 || mine == 8192) && mine !in w.n.pages && Setting(w)
    ensures w' == w.(n := w.n.(pc := w'.n.pc, pages := w.n.pages + {mine}))
    ensures Went(w.n, w'.n, t, MetadataNodes.HasPage(mine)) && Setting(w')
  {
    hide Setting, MetadataNodes.Aligned;
    var w1 := LoadsOffset(w, t);
    PagesOfSetting(w);
    MetadataNodes.AlignedOffset(PAGE_SIZE);
    var e := MetadataNodes.MapPage(t, Some(mine));
    w' := w1.(n := MetadataNodes.After(w1.n, e));
    Calls(w1, e, w'.n);
  }

  /** It installs the page. */
  lemma Installs(w: World, t: Tid, mine: nat) returns (w': World)
    requires t < 2 && PcOf(w.m, t).NeedNode? && MetadataNodes.PcOf(w.n, t) == MetadataNodes.HasPage(mine) && Setting(w)
    ensures w' == w.(n := w.n.(pc := w'.n.pc, page := mine))
    ensures Went(w.n, w'.n, t, MetadataNodes.ToStore(mine)) && Setting(w')
  {
    hide Setting;
    PagesOfSetting(w);
    var w1 := w.(n := MetadataNodes.After(w.n, MetadataNodes.LoadPage(t)));
    Calls(w, MetadataNodes.LoadPage(t), w1.n);
    w' := w1.(n := MetadataNodes.After(w1.n, MetadataNodes.CasPage(t, false)));
    Calls(w1, MetadataNodes.CasPage(t, false), w'.n);
  }

  /** It moves the offset past the second node of the page. */
  lemma Bumps(w: World, t: Tid) returns (w': World)
    requires t < 2 && PcOf(w.m, t).NeedNode? && MetadataNodes.PcOf(w.n, t).Idle? && w.n.offset == 528 && Setting(w)
    ensures w' == w.(n := w.n.(pc := w'.n.pc, offset := 1056))
    ensures Went(w.n, w'.n, t, MetadataNodes.GotBump(528)) && Setting(w')
  {
    hide Setting, MetadataNodes.Aligned;
    PagesOfSetting(w);
    var w1 := LoadsOffset(w, t);
    MetadataNodes.AlignedOffset(528);
    w' := w1.(n := MetadataNodes.After(w1.n, MetadataNodes.Bump(t, false)));
    Calls(w1, MetadataNodes.Bump(t, false), w'.n);
  }

  /** What a thread does with the node it is given. */
  lemma GetsNode(s: State, t: Tid, node: Ptr)
    requires PcOf(s, t) == NeedNode(BIG)
    ensures var s' := FreeGo(s, t, FreshNode(node));
            && PcOf(s', t) == Fill(BIG, node) && s'.box == s.box && s'.carved == s.carved && s'.pages == s.pages
            && forall u: Tid :: u != t ==> PcOf(s', u) == PcOf(s, u)
  {
    hide Goto;
    GotoFacts(s, t);
  }

  /** A page's installer resets the offset and takes the first node. */
  lemma Stores(w: World, t: Tid, mine: nat) returns (w': World)
    requires t < 2 && PcOf(w.m, t) == NeedNode(BIG) && MetadataNodes.PcOf(w.n, t) == MetadataNodes.ToStore(mine)
    requires mine > 0 && mine !in w.n.given && Setting(w)
    ensures w'.n == w.n.(pc := w'.n.pc, offset := 528, given := w.n.given + {mine})
    ensures Went(w.n, w'.n, t, MetadataNodes.Idle)
    ensures PcOf(w'.m, t) == Fill(BIG, mine) && w'.m.box == w.m.box
            && forall u: Tid :: u != t ==> PcOf(w'.m, u) == PcOf(w.m, u)
    ensures Setting(w')
  {
    hide Setting, FreeGo;
    var e := MetadataNodes.StoreOffset(t);
    GetsNode(w.m, t, mine);
    w' := World(FreeGo(w.m, t, FreshNode(mine)), MetadataNodes.After(w.n, e));
    Returns(w, e, w'.n, mine);
  }

  /** A bumper reads the page and takes the node there. */
  lemma Gives(w: World, t: Tid, at: nat) returns (w': World)
    requires t < 2 && PcOf(w.m, t) == NeedNode(BIG) && MetadataNodes.PcOf(w.n, t) == MetadataNodes.GotBump(at)
    requires w.n.page + at > 0 && w.n.page + at !in w.n.given && Setting(w)
    ensures w'.n == w.n.(pc := w'.n.pc, given := w.n.given + {w.n.page + at})
    ensures Went(w.n, w'.n, t, MetadataNodes.Idle)
    ensures PcOf(w'.m, t) == Fill(BIG, w.n.page + at) && w'.m.box == w.m.box
            && forall u: Tid :: u != t ==> PcOf(w'.m, u) == PcOf(w.m, u)
    ensures Setting(w')
  {
    hide Setting, FreeGo;
    var e := MetadataNodes.Give(t);
    GetsNode(w.m, t, w.n.page + at);
    w' := World(FreeGo(w.m, t, FreshNode(w.n.page + at)), MetadataNodes.After(w.n, e));
    Returns(w, e, w'.n, w.n.page + at);
  }

  // ------------------------------------------------------------------
  // The run
  // ------------------------------------------------------------------

  /** Where the two threads stand, and how many blocks are live. */
  ghost predicate Scene(w: World, pc0: Pc, pc1: Pc, live: nat) {
    Setting(w) && PcOf(w.m, 0) == pc0 && PcOf(w.m, 1) == pc1 && |LiveBlocks(w.m)| == live
  }

  ghost predicate Calling(n: MetadataNodes.State, page: nat, offset: nat, pc0: MetadataNodes.Pc,
      pc1: MetadataNodes.Pc, given: set<nat>)
  {
    && n.page == page && n.offset == offset && n.given == given
    && MetadataNodes.PcOf(n, 0) == pc0 && MetadataNodes.PcOf(n, 1) == pc1
  }

  /** Both threads have freed 65 blocks and need a node. */
  lemma BothNeed() returns (w: World)
    ensures Scene(w, NeedNode(BIG), NeedNode(BIG), 128) && w.n == MetadataNodes.INITIAL
  {
    hide Setting;
    StartStocked();
    var top;
    w, top := Stocks(START, 0, 3, 258);
    assert PcOf(w.m, 0) == Idle && PcOf(w.m, 1) == Idle && Count(w.m, 0) == 0 && Count(w.m, 1) == 0;
    w := FillsUp(w, 0);
    w := FillsUp(w, 1);
  }

  /** Both map a page and install it, one after the other. */
  lemma BothInstall(w: World) returns (w': World)
    requires Scene(w, NeedNode(BIG), NeedNode(BIG), 128) && w.n == MetadataNodes.INITIAL
    ensures Scene(w', NeedNode(BIG), NeedNode(BIG), 128)
    ensures Calling(w'.n, 8192, PAGE_SIZE, MetadataNodes.ToStore(4096), MetadataNodes.ToStore(8192), {})
  {
    hide Setting;
    w' := MapsPage(w, 0, 4096);
    w' := MapsPage(w', 1, 8192);
    w' := Installs(w', 0, 4096);
    w' := Installs(w', 1, 8192);
  }

  /** Thread 1 takes the first node of its page, and then needs another. */
  lemma FirstNode(w: World) returns (w': World)
    requires Scene(w, NeedNode(BIG), NeedNode(BIG), 128)
    requires Calling(w.n, 8192, PAGE_SIZE, MetadataNodes.ToStore(4096), MetadataNodes.ToStore(8192), {})
    ensures Scene(w', NeedNode(BIG), NeedNode(BIG), 64)
    ensures Calling(w'.n, 8192, 528, MetadataNodes.ToStore(4096), MetadataNodes.Idle, {8192})
  {
    hide Setting;
    w' := Stores(w, 1, 8192);
    w' := Publishes(w', 1, 8192);
    w' := FillsUp(w', 1);
  }

  /** It fills and publishes the second node. */
  lemma SecondNode(w: World) returns (w': World)
    requires Scene(w, NeedNode(BIG), NeedNode(BIG), 64)
    requires Calling(w.n, 8192, 528, MetadataNodes.ToStore(4096), MetadataNodes.Idle, {8192})
    ensures Scene(w', NeedNode(BIG), Idle, 64) && Count(w'.m, 1) == 1 && NodeMag(w'.m, 8720) != []
    ensures Calling(w'.n, 8192, 1056, MetadataNodes.ToStore(4096), MetadataNodes.Idle, {8192, 8720})
  {
    hide Setting;
    FullAtNeed(w, 1);
    w' := Bumps(w, 1);
    w' := Gives(w', 1, 528);
    w' := Publishes(w', 1, 8720);
  }

  lemma FullAtNeed(w: World, t: Tid)
    requires PcOf(w.m, t) == NeedNode(BIG) && Setting(w)
    ensures FreeMag(w.m, t, BIG) != []
  {
    hide Reachable, BlocksOk, StacksOk, NodesOk, SizesOk, MemoryOk, HandOk;
    var g :| Inv(w.m, g);
    assert ThreadOk(w.m, g, t);
  }

  /** Thread 0 resets the offset, and thread 1 is past its bump again. */
  lemma OffsetReset(w: World) returns (w': World)
    requires Scene(w, NeedNode(BIG), Idle, 64) && Count(w.m, 1) == 1 && NodeMag(w.m, 8720) != []
    requires Calling(w.n, 8192, 1056, MetadataNodes.ToStore(4096), MetadataNodes.Idle, {8192, 8720})
    ensures Setting(w') && PcOf(w'.m, 1) == NeedNode(BIG) && NodeMag(w'.m, 8720) != []
    ensures w'.n.page == 8192 && MetadataNodes.PcOf(w'.n, 1) == MetadataNodes.GotBump(528)
  {
    hide Setting;
    w' := Stores(w, 0, 4096);
    w' := FillsUp(w', 1);
    w' := Bumps(w', 1);
  }

  /** Thread 1 is given the second node again, though it is on the full stack, and
      overwrites the magazine in it. */
  lemma Overwrites(w: World) returns (w': World)
    requires Setting(w) && PcOf(w.m, 1) == NeedNode(BIG) && NodeMag(w.m, 8720) != []
    requires w.n.page == 8192 && MetadataNodes.PcOf(w.n, 1) == MetadataNodes.GotBump(528)
    ensures Reachable(w') && !NothingLost(w'.m)
  {
    hide Inv, FreeGo, FullGo, Enabled, Apply, Reachable;
    var g :| Inv(w.m, g);
    var e := MetadataNodes.Give(1);
    GetsNode(w.m, 1, 8720);
    var w1 := World(FreeGo(w.m, 1, FreshNode(8720)), MetadataNodes.After(w.n, e));
    SettingSeparate(w1);
    ReachNext(w, Inside(e));
    FullGoes(w1.m, 1);
    FillsNode(w1.m, 1, 8720);
    w' := w1.(m := FullGo(w1.m, 1, Proceed));
    KeptMemory(w1.m, w'.m, 1, 8720);
    SettingSeparate(w');
    ReachNext(w1, Outside(Go(1, Proceed)));
    RepeatLosesBlocks(w.m, g, 1, BIG, 8720);
    assert Lost(w'.m, NodeMag(w.m, 8720)[0]);
  }

  lemma TwoFreersLose() returns (w: World)
    ensures Reachable(w) && !NothingLost(w.m)
  {
    hide Scene, Calling, Setting, Reachable, NothingLost;
    w := BothNeed();
    w := BothInstall(w);
    w := FirstNode(w);
    w := SecondNode(w);
    w := OffsetReset(w);
    w := Overwrites(w);
  }

  /** No block of the default build is ever lost, in every run in which `n` threads
      free, if and only if `n` is at most 1. */
  lemma SafeForOneFreerOnly(n: nat)
    ensures SafeFor(n) <==> n <= 1
  {
    hide CanRun, End, NothingLost;
    if n <= 1 {
      forall acts: seq<Act> | CanRun(START, acts) && FreersBelow(acts, n)
        ensures NothingLost(End(START, acts).m)
      {
        FewerFreers(acts, n, 1);
        OneFreerLosesNothing(acts);
      }
    } else {
      var w := TwoFreersLose();
      var acts: seq<Act> :| CanRun(START, acts) && FreersBelow(acts, 2) && End(START, acts) == w;
      FewerFreers(acts, 2, n);
    }
  }

  lemma FewerFreers(acts: seq<Act>, m: nat, n: nat)
    requires m <= n && FreersBelow(acts, m)
    ensures FreersBelow(acts, n)
  {
  }
}
