/** What the magazine allocator guarantees in every run. */
module MagazineSafety {
  import opened Common
  import opened BlockLayout
  import opened MagazineMachine
  import opened MagazineProof

  ghost function AuxAt(states: seq<State>, steps: seq<Step>, i: nat): Aux
    requires i <= |steps| < |states|
  {
    if i == 0 then AUX0 else AuxStep(states[i - 1], AuxAt(states, steps, i - 1), steps[i - 1])
  }

  /** Every state of every run satisfies the invariant. */
  lemma {:induction false} RunKeepsInv(states: seq<State>, steps: seq<Step>, i: nat)
    requires IsRun(states, steps) && i <= |steps|
    ensures Inv(states[i], AuxAt(states, steps, i))
    decreases i
  {
    hide Inv, Enabled, Apply, AuxStep;
    if i == 0 {
      InitialInv();
    } else {
      RunKeepsInv(states, steps, i - 1);
      assert Follows(states[i - 1], steps[i - 1], states[i - 1 + 1]);
      StepKeepsInv(states[i - 1], AuxAt(states, steps, i - 1), steps[i - 1]);
    }
  }

  lemma ExtendRun(states: seq<State>, steps: seq<Step>, step: Step, s': State)
    requires IsRun(states, steps) && Follows(states[|steps|], step, s')
    ensures IsRun(states + [s'], steps + [step])
  {
    hide Follows;
    var states', steps' := states + [s'], steps + [step];
    forall j | 0 <= j < |steps'|
      ensures Follows(states'[j], steps'[j], states'[j + 1])
    {
      if j < |steps| {
        assert Follows(states[j], steps[j], states[j + 1]);
      }
    }
  }

  // ------------------------------------------------------------------
  // Blocks
  // ------------------------------------------------------------------

  /** In every interleaving, every carved block is in exactly one place and is
      listed there once; nothing else is in any place. */
  lemma EachBlockInOnePlace(states: seq<State>, steps: seq<Step>, i: nat)
    requires IsRun(states, steps) && i <= |steps|
    ensures forall l, m, b {:trigger b in At(states[i].box, l), b in At(states[i].box, m)} ::
              b in At(states[i].box, l) && b in At(states[i].box, m) ==> l == m
    ensures forall l :: Distinct(At(states[i].box, l))
    ensures forall b :: b in states[i].carved <==> exists l :: b in At(states[i].box, l)
  {
    hide Inv;
    RunKeepsInv(states, steps, i);
    PlacesOf(states[i], AuxAt(states, steps, i));
  }

  lemma PlacesOf(s: State, g: Aux)
    requires Inv(s, g)
    ensures forall l, m, b {:trigger b in At(s.box, l), b in At(s.box, m)} ::
              b in At(s.box, l) && b in At(s.box, m) ==> l == m
    ensures forall l :: Distinct(At(s.box, l))
    ensures forall b :: b in s.carved <==> exists l :: b in At(s.box, l)
  {
    hide StacksOk, NodesOk, ThreadsOk, SizesOk, MemoryOk, At, ClassFits;
    forall b | b in s.carved
      ensures exists l :: b in At(s.box, l)
    {
      assert b in At(s.box, g.place[b]);
    }
  }

  /** No two live allocations overlap, small or large, and every small one is
      16-aligned and backed by mapped pages. */
  lemma LiveAllocationsNeverOverlap(states: seq<State>, steps: seq<Step>, i: nat)
    requires IsRun(states, steps) && i <= |steps|
    ensures forall j :: 0 <= j < |LiveBlocks(states[i])| ==> LiveBlocks(states[i])[j] in states[i].carved
    ensures var s := states[i];
            var live := LiveBlocks(s);
            && (forall j, k :: 0 <= j < k < |live| ==>
                  Apart(live[j], BlockSize(s.carved[live[j]]), live[k], BlockSize(s.carved[live[k]])))
            && (forall j, b :: 0 <= j < |live| && b in s.large ==>
                  Apart(live[j], BlockSize(s.carved[live[j]]), b, s.large[b] * PAGE_SIZE))
            && (forall a, b :: a in s.large && b in s.large && a != b ==>
                  Apart(a, s.large[a] * PAGE_SIZE, b, s.large[b] * PAGE_SIZE))
            && (forall j :: 0 <= j < |live| ==>
                  live[j] % 16 == 0 && Mapped(s.pages, live[j], BlockSize(s.carved[live[j]])))
  {
    hide Inv, Apart, BlockSize, Mapped;
    RunKeepsInv(states, steps, i);
    EachBlockInOnePlace(states, steps, i);
    MemoryOf(states[i], AuxAt(states, steps, i));
    var live := LiveBlocks(states[i]);
    assert Distinct(At(states[i].box, Live));
    forall j | 0 <= j < |live|
      ensures live[j] in states[i].carved
    {
      assert live[j] in At(states[i].box, Live);
    }
  }

  /** The points of `alloc` at which a thread may return to its caller. */
  predicate AllocPoint(pc: Pc) {
    pc.TryLocal? || pc.TakeSwapped? || pc.TakePopped? || pc.Miss?
  }

  /** Block `b` of class `c` becomes live: it was not, and it is the last of the
      thread's own alloc magazine or, if that is empty, from freshly mapped pages. */
  ghost predicate HandsOut(s: State, s': State, t: Tid, c: nat, b: nat) {
    && LiveBlocks(s') == LiveBlocks(s) + [b] && b !in LiveBlocks(s)
    && b in s'.carved && s'.carved[b] == c
    && (if b in s.carved then s.carved[b] == c && AllocMag(s, t, c) == AllocMag(s', t, c) + [b]
        else AllocMag(s, t, c) == [])
  }

  /** Whenever a thread returns from `alloc`, either no page came and no box
      changed, or exactly one block is handed out, idle or new before and of the
      class asked for; every other step of a thread leaves the live blocks alone. */
  lemma AllocHandsOutIdleBlock(states: seq<State>, steps: seq<Step>, i: nat, t: Tid, choice: Choice)
    requires IsRun(states, steps) && i < |steps| && steps[i] == Go(t, choice)
    ensures var s, s' := states[i], states[i + 1];
            if AllocPoint(PcOf(s, t)) && PcOf(s', t).Idle?
            then (choice.NoPage? && s'.box == s.box) || exists b :: HandsOut(s, s', t, PcOf(s, t).c, b)
            else LiveBlocks(s') == LiveBlocks(s)
  {
    hide Inv, GoStep, LiveBlocks, HandsOut;
    assert Follows(states[i], steps[i], states[i + 1]);
    RunKeepsInv(states, steps, i);
    StepHandsOut(states[i], AuxAt(states, steps, i), t, choice);
  }

  /** The block a step hands out, if it hands one out. */
  ghost function HandedOut(s: State, t: Tid, choice: Choice): Option<nat> {
    var pc := PcOf(s, t);
    if pc.TryLocal? || pc.TakeSwapped? || pc.TakePopped? then
      var mag := AllocMag(s, t, pc.c);
      if mag == [] then None else Some(mag[|mag| - 1])
    else if pc.Miss? && (choice.BulkPage? || choice.SingleRun?) then Some(choice.base)
    else None
  }

  lemma StepHandsOut(s: State, g: Aux, t: Tid, choice: Choice)
    requires Inv(s, g) && GoEnabled(s, t, choice)
    ensures var s' := GoStep(s, t, choice);
            if HandedOut(s, t, choice).Some? then HandsOut(s, s', t, PcOf(s, t).c, HandedOut(s, t, choice).value)
            else LiveBlocks(s') == LiveBlocks(s)
    ensures var s' := GoStep(s, t, choice);
            AllocPoint(PcOf(s, t)) && PcOf(s', t).Idle? ==>
              HandedOut(s, t, choice).Some? || (choice.NoPage? && s'.box == s.box)
    ensures HandedOut(s, t, choice).Some? ==> AllocPoint(PcOf(s, t)) && PcOf(GoStep(s, t, choice), t).Idle?
  {
    hide Inv, GoStep, LiveBlocks, BlocksPerPage, PagesForBlock, PageRun, HandsOut;
    var pc := PcOf(s, t);
    if pc.TryLocal? || pc.TakeSwapped? || pc.TakePopped? {
      TakeHandsOut(s, g, t, pc.c);
    } else if pc.Miss? {
      MissHandsOut(s, g, t, pc.c, choice);
    } else {
      OtherStepsKeepLive(s, t, choice);
    }
  }

  lemma TakeHandsOut(s: State, g: Aux, t: Tid, c: nat)
    requires Inv(s, g) && (PcOf(s, t) == TryLocal(c) || PcOf(s, t) == TakeSwapped(c) || PcOf(s, t) == TakePopped(c))
    ensures var s', mag := GoStep(s, t, Proceed), AllocMag(s, t, c);
            if mag == [] then LiveBlocks(s') == LiveBlocks(s) && !PcOf(s', t).Idle?
            else HandsOut(s, s', t, c, mag[|mag| - 1]) && PcOf(s', t).Idle?
  {
    hide Inv, GoStep, HandsOut, TakeStep, LiveBlocks, AllocMag;
    var otherwise := if PcOf(s, t).TakePopped? then Miss(c) else PopLoad(c);
    if AllocMag(s, t, c) == [] {
      NothingToTake(s, t, c);
    } else {
      TakeIs(s, t, c, otherwise);
      TakingHandsOut(s, g, t, c, otherwise);
    }
  }

  lemma TakeIs(s: State, t: Tid, c: nat, otherwise: Pc)
    requires PcOf(s, t) == TryLocal(c) || PcOf(s, t) == TakeSwapped(c) || PcOf(s, t) == TakePopped(c)
    requires AllocMag(s, t, c) != [] && otherwise == if PcOf(s, t).TakePopped? then Miss(c) else PopLoad(c)
    ensures GoEnabled(s, t, Proceed) && GoStep(s, t, Proceed) == TakeStep(s, t, c, otherwise)
  {
    hide GoStep, TakeStep, AllocMag, FreeMag;
    GoesAlloc(s, t, Proceed);
  }

  lemma NothingToTake(s: State, t: Tid, c: nat)
    requires PcOf(s, t) == TryLocal(c) || PcOf(s, t) == TakeSwapped(c) || PcOf(s, t) == TakePopped(c)
    requires AllocMag(s, t, c) == []
    ensures GoEnabled(s, t, Proceed)
    ensures var s' := GoStep(s, t, Proceed); LiveBlocks(s') == LiveBlocks(s) && !PcOf(s', t).Idle?
  {
    hide GoStep, Goto;
    GoesAlloc(s, t, Proceed);
    GotoFacts(s, t);
  }

  lemma TakingHandsOut(s: State, g: Aux, t: Tid, c: nat, otherwise: Pc)
    requires Inv(s, g) && AllocMag(s, t, c) != []
    ensures var s', mag := TakeStep(s, t, c, otherwise), AllocMag(s, t, c);
            HandsOut(s, s', t, c, mag[|mag| - 1]) && PcOf(s', t).Idle?
  {
    hide StacksOk, NodesOk, ThreadsOk, SizesOk, MemoryOk, BlocksIn;
    var mag := AllocMag(s, t, c);
    InCarved(s, g, InAlloc(t, c), |mag| - 1);
    OnePlace(s, g, InAlloc(t, c), Live, mag[|mag| - 1]);
  }

  lemma OnePlace(s: State, g: Aux, l: Place, m: Place, b: nat)
    requires BlocksOk(s, g) && b in At(s.box, l) && l != m
    ensures b !in At(s.box, m)
  {
    hide At;
  }

  lemma MissHandsOut(s: State, g: Aux, t: Tid, c: nat, choice: Choice)
    requires Inv(s, g) && PcOf(s, t) == Miss(c) && GoEnabled(s, t, choice)
    ensures var s' := GoStep(s, t, choice);
            if choice.NoPage? then s'.box == s.box && LiveBlocks(s') == LiveBlocks(s)
            else HandsOut(s, s', t, c, choice.base)
    ensures PcOf(GoStep(s, t, choice), t).Idle?
  {
    hide Inv, BlockSize, BlocksPerPage, PagesForBlock, PageRun, BulkRoom, HandsOut, Fresh;
    MissFacts(s, g, t);
    if choice.BulkPage? {
      BulkHandsOut(s, g, t, c, choice.base);
    } else if choice.SingleRun? {
      SingleHandsOut(s, g, t, c, choice.base);
    }
  }

  lemma MissFacts(s: State, g: Aux, t: Tid)
    requires Inv(s, g) && PcOf(s, t).Miss?
    ensures MemoryOk(s) && PcOf(s, t).c < NUM_CLASSES && AllocMag(s, t, PcOf(s, t).c) == []
  {
    hide BlocksIn, StacksOk, NodesOk, SizesOk, MemoryOk;
    assert ThreadOk(s, g, t);
  }

  lemma NewIsNotLive(s: State, g: Aux, b: nat)
    requires Inv(s, g) && b !in s.carved
    ensures b !in LiveBlocks(s)
  {
    hide StacksOk, NodesOk, ThreadsOk, SizesOk, MemoryOk;
    assert b in At(s.box, Live) ==> b in g.place;
  }

  lemma BulkHandsOut(s: State, g: Aux, t: Tid, c: nat, base: nat)
    requires Inv(s, g) && MemoryOk(s) && c < NUM_CLASSES && AllocMag(s, t, c) == []
    requires BlocksPerPage(c) > 1 && FreshRun(s, base, 1)
    ensures HandsOut(s, CarvePage(Goto(s, t, Idle), t, c, base), t, c, base)
  {
    hide Inv, MemoryOk, BlockSize, BlocksPerPage, BulkRoom, PageRun;
    var blocks := PageBlocks(base, c);
    CarvePageMemory(s, t, c, base);
    assert blocks[..1] == [blocks[0]] && blocks[0] == base && blocks[0] in blocks;
    NewIsNotLive(s, g, base);
  }

  lemma SingleHandsOut(s: State, g: Aux, t: Tid, c: nat, base: nat)
    requires Inv(s, g) && MemoryOk(s) && c < NUM_CLASSES && AllocMag(s, t, c) == []
    requires FreshRun(s, base, PagesForBlock(c))
    ensures HandsOut(s, CarveSingle(Goto(s, t, Idle), c, base), t, c, base)
  {
    hide Inv, MemoryOk, BlockSize, PagesForBlock, PageRun;
    SingleMemory(s, c, base);
    NewIsNotLive(s, g, base);
  }

  /** Steps of a thread that touch no box. */
  predicate Quiet(pc: Pc) {
    || pc.PopLoad? || pc.PopNext? || pc.PopCas?
    || pc.EmptyLoad? || pc.EmptyLink? || pc.EmptyCas?
    || pc.FullLoad? || pc.FullLink? || pc.FullCas?
  }

  lemma QuietKeepsBoxes(s: State, t: Tid, choice: Choice)
    requires GoEnabled(s, t, choice) && Quiet(PcOf(s, t))
    ensures GoStep(s, t, choice).box == s.box
  {
    hide GoStep, GoEnabled;
    var pc := PcOf(s, t);
    if pc.PopLoad? || pc.PopNext? || pc.PopCas? {
      PopsKeepBoxes(s, t, choice);
    } else if pc.EmptyLoad? || pc.EmptyLink? || pc.EmptyCas? {
      EmptiesKeepBoxes(s, t, choice);
    } else {
      FullsKeepBoxes(s, t, choice);
    }
  }

  lemma PopsKeepBoxes(s: State, t: Tid, choice: Choice)
    requires GoEnabled(s, t, choice) && (PcOf(s, t).PopLoad? || PcOf(s, t).PopNext? || PcOf(s, t).PopCas?)
    ensures GoStep(s, t, choice).box == s.box
  {
    hide GoStep, At, FullHead, AfterPopLoad, Goto;
    GoesPop(s, t, choice);
    GotoFacts(s, t);
    hide GoEnabled;
  }

  lemma EmptiesKeepBoxes(s: State, t: Tid, choice: Choice)
    requires GoEnabled(s, t, choice) && (PcOf(s, t).EmptyLoad? || PcOf(s, t).EmptyLink? || PcOf(s, t).EmptyCas?)
    ensures GoStep(s, t, choice).box == s.box
  {
    hide GoStep, Pour, At, EmptyHead, Goto;
    GoesEmpty(s, t, choice);
    GotoFacts(s, t);
    hide GoEnabled;
  }

  lemma FullsKeepBoxes(s: State, t: Tid, choice: Choice)
    requires GoEnabled(s, t, choice) && (PcOf(s, t).FullLoad? || PcOf(s, t).FullLink? || PcOf(s, t).FullCas?)
    ensures GoStep(s, t, choice).box == s.box
  {
    hide GoStep, Pour, At, FullHead, Goto;
    GoesFull(s, t, choice);
    GotoFacts(s, t);
    hide GoEnabled;
  }

  lemma ShiftElsewhere(box: Boxes, from: Place, i: nat, to: Place, l: Place)
    requires i < |At(box, from)| && l != from && l != to
    ensures At(Shift(box, from, i, to), l) == At(box, l)
  {
  }

  lemma PutElsewhere(s: State, t: Tid, c: nat, l: Place)
    requires l != InHand(t, c) && l != PutTarget(s, t, c)
    ensures At(PutStep(s, t, c).box, l) == At(s.box, l)
  {
    hide Shift, PutTarget;
    if At(s.box, InHand(t, c)) != [] {
      ShiftElsewhere(s.box, InHand(t, c), 0, PutTarget(s, t, c), l);
    }
  }

  /** Pouring a magazine or freeing leaves the program's and the dropped blocks alone. */
  lemma PourElsewhere(s: State, t: Tid, choice: Choice, l: Place)
    requires GoEnabled(s, t, choice) && (PcOf(s, t).Exchange? || PcOf(s, t).Fill?) && (l == Live || l == Leaked)
    ensures At(GoStep(s, t, choice).box, l) == At(s.box, l)
  {
  }

  lemma OtherStepsKeepLive(s: State, t: Tid, choice: Choice)
    requires GoEnabled(s, t, choice)
    requires !PcOf(s, t).TryLocal? && !PcOf(s, t).TakeSwapped? && !PcOf(s, t).TakePopped? && !PcOf(s, t).Miss?
    ensures LiveBlocks(GoStep(s, t, choice)) == LiveBlocks(s)
  {
    hide Shift, Pour, PutStep, PutInto, At;
    var pc := PcOf(s, t);
    if Quiet(pc) {
      QuietKeepsBoxes(s, t, choice);
    } else if pc.Exchange? || pc.Fill? {
      PourElsewhere(s, t, choice, Live);
    } else {
      PutElsewhere(s, t, pc.c, Live);
    }
  }

  // ------------------------------------------------------------------
  // Conservation
  // ------------------------------------------------------------------

  /** Magazines on the full stack are full, of one class; on the empty stack
      they are empty; the magazine cleared after an exchange had nothing to
      lose; and a popped magazine always yields an allocation. */
  lemma MagazinesAreFullOrEmpty(states: seq<State>, steps: seq<Step>, i: nat, t: Tid)
    requires IsRun(states, steps) && i <= |steps|
    ensures var s := states[i];
            && (forall c, stack, n :: FullStackIs(s, c, stack) && n in stack ==>
                  |NodeMag(s, n)| == MAGAZINE_CAPACITY
                  && forall b :: b in NodeMag(s, n) ==> b in s.carved && s.carved[b] == c)
            && (forall c, stack, n :: EmptyStackIs(s, c, stack) && n in stack ==> NodeMag(s, n) == [])
            && (PcOf(s, t).Exchange? ==> AllocMag(s, t, PcOf(s, t).c) == [])
            && (PcOf(s, t).TakePopped? ==> AllocMag(s, t, PcOf(s, t).c) != [])
  {
    hide Inv, Chain;
    RunKeepsInv(states, steps, i);
    var s, g := states[i], AuxAt(states, steps, i);
    forall c, stack, n | FullStackIs(s, c, stack) && n in stack
      ensures |NodeMag(s, n)| == MAGAZINE_CAPACITY
      ensures forall b :: b in NodeMag(s, n) ==> b in s.carved && s.carved[b] == c
    {
      StackOfAux(s, g, c);
      ChainUnique(s.next, FullHead(s, c), stack, FullOf(g, c));
      FullNode(s, g, c, n);
    }
    forall c, stack, n | EmptyStackIs(s, c, stack) && n in stack
      ensures NodeMag(s, n) == []
    {
      StackOfAux(s, g, c);
      ChainUnique(s.next, EmptyHead(s, c), stack, EmptyOf(g, c));
      EmptyNode(s, g, c, n);
    }
    ThreadFacts(s, g, t);
  }

  lemma FullNode(s: State, g: Aux, c: nat, n: Ptr)
    requires Inv(s, g) && n in FullOf(g, c)
    ensures |NodeMag(s, n)| == MAGAZINE_CAPACITY
    ensures forall b :: b in NodeMag(s, n) ==> b in s.carved && s.carved[b] == c
  {
    hide ThreadsOk, SizesOk, MemoryOk;
    assert StackOk(s.next, FullHead(s, c), FullOf(g, c), g, OnFull, c);
    assert NodeOk(s, g, n);
    forall b | b in NodeMag(s, n)
      ensures b in s.carved && s.carved[b] == c
    {
      assert b in At(s.box, InNode(n));
    }
  }

  lemma EmptyNode(s: State, g: Aux, c: nat, n: Ptr)
    requires Inv(s, g) && n in EmptyOf(g, c)
    ensures NodeMag(s, n) == []
  {
    hide ThreadsOk, SizesOk, MemoryOk, BlocksIn;
    assert StackOk(s.next, EmptyHead(s, c), EmptyOf(g, c), g, OnEmpty, c);
    assert NodeOk(s, g, n);
  }

  lemma ThreadFacts(s: State, g: Aux, t: Tid)
    requires Inv(s, g)
    ensures PcOf(s, t).Exchange? ==> AllocMag(s, t, PcOf(s, t).c) == []
    ensures PcOf(s, t).TakePopped? ==> AllocMag(s, t, PcOf(s, t).c) != []
  {
    hide StacksOk, NodesOk, SizesOk, MemoryOk, BlocksIn;
    assert ThreadOk(s, g, t);
  }

  /** The blocks `bulk_init` passed over: 63 per carved page of class 0, 20 per
      page of class 1, none of any other class. */
  lemma OverflowIsExact(states: seq<State>, steps: seq<Step>, i: nat, c: nat)
    requires IsRun(states, steps) && i <= |steps| && c < NUM_CLASSES
    ensures |At(states[i].box, HadNoRoom(c))|
            == BulkPages(states[i], c) * (if c == 0 then 63 else if c == 1 then 20 else 0)
  {
    hide Inv, BlockSize, BlocksPerPage, Refill, Overflow, PagesForBlock;
    RunKeepsInv(states, steps, i);
    ClassGeometry(c);
    NoRoomOf(states[i], AuxAt(states, steps, i), c);
  }

  lemma NoRoomOf(s: State, g: Aux, c: nat)
    requires Inv(s, g) && c < NUM_CLASSES
    ensures |At(s.box, HadNoRoom(c))| == BulkPages(s, c) * Overflow(c)
  {
    hide BlocksIn, StacksOk, NodesOk, ThreadsOk, MemoryOk, Overflow;
    assert NoRoomOk(At(s.box, HadNoRoom(c)), BulkPages(s, c), c);
  }

  /** How many of the first `i` steps found `alloc_node` failing. */
  ghost function FailedNodes(steps: seq<Step>, i: nat): nat
    requires i <= |steps|
  {
    if i == 0 then 0 else FailedNodes(steps, i - 1) + (if Fails(steps[i - 1]) then 1 else 0)
  }

  predicate Fails(step: Step) {
    step.Go? && step.choice.NoNode?
  }

  /** Exactly one block is dropped for each time `alloc_node` fails, so while it
      succeeds every carved block is live, cached, in hand, or passed over. */
  lemma {:induction false} OneLeakPerFailedNode(states: seq<State>, steps: seq<Step>, i: nat)
    requires IsRun(states, steps) && i <= |steps|
    ensures |At(states[i].box, Leaked)| == FailedNodes(steps, i)
    decreases i
  {
    hide Inv, Enabled, Apply, At;
    if i == 0 {
      NothingLeakedYet();
    } else {
      OneLeakPerFailedNode(states, steps, i - 1);
      assert Follows(states[i - 1], steps[i - 1], states[i - 1 + 1]);
      RunKeepsInv(states, steps, i - 1);
      StepLeaks(states[i - 1], AuxAt(states, steps, i - 1), steps[i - 1]);
    }
  }

  lemma NothingLeakedYet()
    ensures At(INITIAL.box, Leaked) == []
  {
  }

  lemma StepLeaks(s: State, g: Aux, step: Step)
    requires Inv(s, g) && Enabled(s, step)
    ensures |At(Apply(s, step).box, Leaked)| == |At(s.box, Leaked)| + if Fails(step) then 1 else 0
  {
    hide Inv, GoStep, Shift, At, PageRun;
    match step
    case Go(t, choice) =>
      if choice.NoNode? {
        NoNodeLeaks(s, g, t);
      } else {
        GoLeaks(s, g, t, choice);
      }
    case Free(t, i) => ShiftElsewhere(s.box, Live, i, InHand(t, s.carved[LiveBlocks(s)[i]]), Leaked);
    case _ =>
  }

  /** Without a node the block in hand meets a full magazine and is dropped. */
  lemma NoNodeLeaks(s: State, g: Aux, t: Tid)
    requires Inv(s, g) && GoEnabled(s, t, NoNode)
    ensures |At(GoStep(s, t, NoNode).box, Leaked)| == |At(s.box, Leaked)| + 1
  {
    hide BlocksIn, StacksOk, NodesOk, SizesOk, MemoryOk;
    var c := PcOf(s, t).c;
    assert ThreadOk(s, g, t);
    assert |At(s.box, InHand(t, c))| == 1;
  }

  lemma GoLeaks(s: State, g: Aux, t: Tid, choice: Choice)
    requires Inv(s, g) && GoEnabled(s, t, choice) && !choice.NoNode?
    ensures At(GoStep(s, t, choice).box, Leaked) == At(s.box, Leaked)
  {
    hide Inv, Shift, Pour, PutStep, PutInto, At, CarvePage, CarveSingle, PageRun, BlocksPerPage, PagesForBlock;
    var pc := PcOf(s, t);
    if Quiet(pc) {
      QuietKeepsBoxes(s, t, choice);
    } else if pc.Exchange? || pc.Fill? {
      PourElsewhere(s, t, choice, Leaked);
    } else if pc.Miss? {
      CarveElsewhere(s, t, choice);
    } else if pc.TryLocal? || pc.TakeSwapped? || pc.TakePopped? {
      TakeElsewhere(s, t);
    } else {
      PutLeaks(s, g, t, choice);
    }
  }

  lemma CarveElsewhere(s: State, t: Tid, choice: Choice)
    requires PcOf(s, t).Miss? && GoEnabled(s, t, choice)
    ensures At(GoStep(s, t, choice).box, Leaked) == At(s.box, Leaked)
  {
    hide BlocksPerPage, PagesForBlock, PageRun, BulkRoom, BlockSize;
  }

  lemma TakeElsewhere(s: State, t: Tid)
    requires PcOf(s, t).TryLocal? || PcOf(s, t).TakeSwapped? || PcOf(s, t).TakePopped?
    ensures At(GoStep(s, t, Proceed).box, Leaked) == At(s.box, Leaked)
  {
    hide Shift;
    var c := PcOf(s, t).c;
    var n := |AllocMag(s, t, c)|;
    if n > 0 {
      ShiftElsewhere(s.box, InAlloc(t, c), n - 1, Live, Leaked);
    }
  }

  lemma PutLeaks(s: State, g: Aux, t: Tid, choice: Choice)
    requires Inv(s, g) && GoEnabled(s, t, choice) && !choice.NoNode?
    requires PcOf(s, t).TryPut? || PcOf(s, t).NeedNode? || PcOf(s, t).PutLocal?
    ensures At(GoStep(s, t, choice).box, Leaked) == At(s.box, Leaked)
  {
    hide Inv, Shift, PutStep, PutInto, At;
    var pc := PcOf(s, t);
    if pc.PutLocal? {
      PutLocalHasRoom(s, g, t);
      PutElsewhere(s, t, pc.c, Leaked);
    } else if pc.TryPut? && |FreeMag(s, t, pc.c)| < MAGAZINE_CAPACITY {
      PutElsewhere(s, t, pc.c, Leaked);
    }
  }

  lemma PutLocalHasRoom(s: State, g: Aux, t: Tid)
    requires Inv(s, g) && PcOf(s, t).PutLocal?
    ensures |FreeMag(s, t, PcOf(s, t).c)| < MAGAZINE_CAPACITY
  {
    hide BlocksIn, StacksOk, NodesOk, SizesOk, MemoryOk;
    assert ThreadOk(s, g, t);
  }

  // ------------------------------------------------------------------
  // The full stack
  // ------------------------------------------------------------------

  /** The nodes of the full stack of class `c`, top first. */
  ghost predicate FullStackIs(s: State, c: nat, stack: seq<Ptr>) {
    Chain(s.next, FullHead(s, c), stack) && Distinct(stack)
  }

  ghost predicate EmptyStackIs(s: State, c: nat, stack: seq<Ptr>) {
    Chain(s.next, EmptyHead(s, c), stack) && Distinct(stack)
  }

  /** There is only one such sequence. */
  lemma {:induction false} ChainUnique(next: map<Ptr, Ptr>, head: Ptr, x: seq<Ptr>, y: seq<Ptr>)
    requires Chain(next, head, x) && Chain(next, head, y)
    ensures x == y
    decreases |x|
  {
    if |x| > 0 && |y| > 0 {
      TailChain(next, head, x);
      TailChain(next, head, y);
      ChainUnique(next, Link(next, head), x[1..], y[1..]);
      assert x == [x[0]] + x[1..] && y == [y[0]] + y[1..];
    }
  }

  lemma TailChain(next: map<Ptr, Ptr>, head: Ptr, x: seq<Ptr>)
    requires Chain(next, head, x) && |x| > 0
    ensures Chain(next, Link(next, head), x[1..])
  {
    forall i | 0 <= i < |x[1..]|
      ensures x[1..][i] != NULL && Link(next, x[1..][i]) == Below(x[1..], i)
    {
      assert x[1..][i] == x[i + 1];
    }
    assert x[0] == head;
  }

  /** What a step does to a stack: push, pop, or nothing. */
  ghost predicate StackStep(s: State, step: Step, c: nat, stack: seq<Ptr>, stack': seq<Ptr>) {
    if PushesFull(s, step, c).Some? then stack' == [PushesFull(s, step, c).value] + stack
    else if PopsFull(s, step, c).Some? then stack == [PopsFull(s, step, c).value] + stack'
    else stack' == stack
  }

  /** Main result: although the compare-and-swaps carry no tag, the full stack of
      every class is a LIFO sequence.  A successful pop removes exactly the top,
      so it installs the true successor even if the link was read long before. */
  lemma FullStackIsLifo(states: seq<State>, steps: seq<Step>, i: nat, c: nat, stack: seq<Ptr>)
    requires IsRun(states, steps) && i < |steps| && FullStackIs(states[i], c, stack)
    ensures exists stack' :: FullStackIs(states[i + 1], c, stack') && StackStep(states[i], steps[i], c, stack, stack')
  {
    hide Inv, Chain;
    var g, g' := AuxAt(states, steps, i), AuxAt(states, steps, i + 1);
    RunKeepsInv(states, steps, i);
    RunKeepsInv(states, steps, i + 1);
    StackOfAux(states[i], g, c);
    StackOfAux(states[i + 1], g', c);
    ChainUnique(states[i].next, FullHead(states[i], c), stack, FullOf(g, c));
    AuxStackStep(states[i], g, steps[i], c);
    assert FullStackIs(states[i + 1], c, FullOf(g', c));
  }

  lemma StackOfAux(s: State, g: Aux, c: nat)
    requires Inv(s, g)
    ensures FullStackIs(s, c, FullOf(g, c)) && EmptyStackIs(s, c, EmptyOf(g, c))
  {
    hide BlocksIn, NodesOk, ThreadsOk, SizesOk, MemoryOk;
    assert StackOk(s.next, FullHead(s, c), FullOf(g, c), g, OnFull, c);
    assert StackOk(s.next, EmptyHead(s, c), EmptyOf(g, c), g, OnEmpty, c);
  }

  lemma AuxStackStep(s: State, g: Aux, step: Step, c: nat)
    requires Inv(s, g)
    ensures StackStep(s, step, c, FullOf(g, c), FullOf(AuxStep(s, g, step), c))
  {
    hide Inv, AuxGo;
    if step.Go? && PcOf(s, step.t).PopCas? {
      PopStackStep(s, g, step, c);
    } else if step.Go? && PcOf(s, step.t).FullCas? {
      PushStackStep(s, g, step, c);
    } else if step.Go? {
      OtherStepsKeepFull(s, g, step.t, step.choice);
    }
  }

  lemma PopStackStep(s: State, g: Aux, step: Step, c: nat)
    requires Inv(s, g) && step.Go? && PcOf(s, step.t).PopCas?
    ensures StackStep(s, step, c, FullOf(g, c), FullOf(AuxStep(s, g, step), c))
  {
    hide BlocksIn, NodesOk, SizesOk, MemoryOk, StacksOk, ThreadsOk;
    if PopsFull(s, step, c).Some? {
      PopReadsTrueSuccessor(s, g, step.t, c, PcOf(s, step.t).cur, PcOf(s, step.t).nxt);
    }
  }

  lemma PushStackStep(s: State, g: Aux, step: Step, c: nat)
    requires step.Go? && PcOf(s, step.t).FullCas?
    ensures StackStep(s, step, c, FullOf(g, c), FullOf(AuxStep(s, g, step), c))
  {
  }

  lemma OtherStepsKeepFull(s: State, g: Aux, t: Tid, choice: Choice)
    requires !PcOf(s, t).PopCas? && !PcOf(s, t).FullCas?
    ensures AuxGo(s, g, t, choice).full == g.full
  {
    hide Renamed, AuxTake, AuxPut, AuxMiss, AuxPushEmpty, AuxNode, FreeMag, AllocMag;
    AuxPartsKeepFull(s, g, t, choice);
  }

  lemma AuxPartsKeepFull(s: State, g: Aux, t: Tid, choice: Choice)
    ensures forall c :: AuxTake(s, g, t, c).full == g.full && AuxPut(s, g, t, c).full == g.full
    ensures forall c :: AuxMiss(s, g, t, c, choice).full == g.full
    ensures forall c, n :: AuxPushEmpty(g, c, n).full == g.full && AuxNode(g, t, c, n).full == g.full
  {
    hide Put, PageBlocks, BulkRoom, PutTarget, At;
  }

  /** Nodes only move forward through their stages. */
  lemma StepAdvances(s: State, g: Aux, step: Step, n: Ptr)
    requires Inv(s, g) && Enabled(s, step) && n in g.stage
    ensures n in AuxStep(s, g, step).stage
    ensures Rank(g.stage[n]) <= Rank(AuxStep(s, g, step).stage[n])
  {
    hide BlocksIn, SizesOk, MemoryOk, Put, Renamed, PageBlocks, BulkRoom, PutTarget, At, StackOk, PointOk, NodeOk;
    if step.Go? {
      var pc := PcOf(s, step.t);
      if pc.PopCas? && PopsFull(s, step, pc.c).Some? {
        PopReadsTrueSuccessor(s, g, step.t, pc.c, pc.cur, pc.nxt);
      } else if pc.HoldsNew() || pc.HoldsPopped() {
        assert OwnerOk(s, g, step.t);
      }
    }
  }

  /** Node `n` has been allocated and has reached at least stage `rank`. */
  ghost predicate Reached(g: Aux, n: Ptr, rank: nat) {
    n in g.stage && Rank(g.stage[n]) >= rank
  }

  lemma StepReaches(states: seq<State>, steps: seq<Step>, i: nat, n: Ptr, rank: nat)
    requires IsRun(states, steps) && i < |steps| < |states| && Inv(states[i], AuxAt(states, steps, i))
    requires Reached(AuxAt(states, steps, i), n, rank)
    ensures Reached(AuxStep(states[i], AuxAt(states, steps, i), steps[i]), n, rank)
  {
    hide Inv, AuxStep, Rank;
    assert Follows(states[i], steps[i], states[i + 1]);
    StepAdvances(states[i], AuxAt(states, steps, i), steps[i], n);
  }

  lemma {:induction false} RunAdvances(states: seq<State>, steps: seq<Step>, i: nat, j: nat, n: Ptr, rank: nat)
    requires IsRun(states, steps) && i <= j <= |steps| < |states| && Reached(AuxAt(states, steps, i), n, rank)
    ensures Reached(AuxAt(states, steps, j), n, rank)
    decreases j
  {
    hide Inv, AuxStep, Reached, IsRun, AuxAt;
    if i < j {
      RunAdvances(states, steps, i, j - 1, n, rank);
      RunKeepsInv(states, steps, j - 1);
      StepReaches(states, steps, j - 1, n, rank);
      AuxNext(states, steps, j);
    }
  }

  lemma AuxNext(states: seq<State>, steps: seq<Step>, j: nat)
    requires 0 < j <= |steps| < |states|
    ensures AuxAt(states, steps, j) == AuxStep(states[j - 1], AuxAt(states, steps, j - 1), steps[j - 1])
  {
    hide AuxStep;
  }

  lemma PushMovesStage(s: State, g: Aux, step: Step, c: nat, n: Ptr)
    requires Inv(s, g) && Enabled(s, step) && PushesFull(s, step, c) == Some(n)
    ensures n in g.stage && Rank(g.stage[n]) == 0
    ensures n in AuxStep(s, g, step).stage && Rank(AuxStep(s, g, step).stage[n]) == 1
  {
    hide BlocksIn, SizesOk, MemoryOk, StacksOk;
    assert OwnerOk(s, g, step.t);
  }

  lemma PopMovesStage(s: State, g: Aux, step: Step, c: nat, n: Ptr)
    requires Inv(s, g) && Enabled(s, step) && PopsFull(s, step, c) == Some(n)
    ensures n in g.stage && Rank(g.stage[n]) == 1
    ensures n in AuxStep(s, g, step).stage && Rank(AuxStep(s, g, step).stage[n]) == 2
  {
    hide BlocksIn, SizesOk, MemoryOk, NodesOk;
    PopReadsTrueSuccessor(s, g, step.t, c, n, PcOf(s, step.t).nxt);
  }

  /** Over any run a node enters the full stacks at most once, whichever thread
      pushes and for whichever class. */
  lemma NodeEntersFullOnce(states: seq<State>, steps: seq<Step>, i: nat, j: nat, c: nat, d: nat, n: Ptr)
    requires IsRun(states, steps) && i < j < |steps|
    requires PushesFull(states[i], steps[i], c) == Some(n)
    ensures PushesFull(states[j], steps[j], d) != Some(n)
  {
    hide Inv, AuxStep, Rank, PushesFull;
    RunKeepsInv(states, steps, i);
    RunKeepsInv(states, steps, j);
    assert Follows(states[i], steps[i], states[i + 1]) && Follows(states[j], steps[j], states[j + 1]);
    PushMovesStage(states[i], AuxAt(states, steps, i), steps[i], c, n);
    RunAdvances(states, steps, i + 1, j, n, 1);
    if PushesFull(states[j], steps[j], d) == Some(n) {
      PushMovesStage(states[j], AuxAt(states, steps, j), steps[j], d, n);
    }
  }

  /** Each node is popped by at most one thread, once. */
  lemma NodeLeavesFullOnce(states: seq<State>, steps: seq<Step>, i: nat, j: nat, c: nat, d: nat, n: Ptr)
    requires IsRun(states, steps) && i < j < |steps|
    requires PopsFull(states[i], steps[i], c) == Some(n)
    ensures PopsFull(states[j], steps[j], d) != Some(n)
  {
    hide Inv, AuxStep, Rank, PopsFull;
    RunKeepsInv(states, steps, i);
    RunKeepsInv(states, steps, j);
    assert Follows(states[i], steps[i], states[i + 1]) && Follows(states[j], steps[j], states[j + 1]);
    PopMovesStage(states[i], AuxAt(states, steps, i), steps[i], c, n);
    RunAdvances(states, steps, i + 1, j, n, 2);
    if PopsFull(states[j], steps[j], d) == Some(n) {
      PopMovesStage(states[j], AuxAt(states, steps, j), steps[j], d, n);
    }
  }

  // ------------------------------------------------------------------
  // When `alloc` gives up, and that no operation gets stuck
  // ------------------------------------------------------------------

  /** Where a pop of the full stack goes on, given the stack: with its top, or to
      a miss if it is empty. */
  ghost predicate PopGoesOn(pc': Pc, c: nat, stack: seq<Ptr>) {
    if stack == [] then pc' == Miss(c)
    else pc' == PopNext(c, stack[0]) || pc' == Exchange(c, stack[0])
  }

  lemma PopSeesStack(s: State, g: Aux, t: Tid, choice: Choice, stack: seq<Ptr>)
    requires Inv(s, g) && GoEnabled(s, t, choice) && (PcOf(s, t).PopLoad? || PcOf(s, t).PopCas?)
    requires FullStackIs(s, PcOf(s, t).c, stack)
    ensures PopGoesOn(PcOf(GoStep(s, t, choice), t), PcOf(s, t).c, stack)
    ensures PcOf(GoStep(s, t, choice), t).Exchange? ==> PcOf(s, t).PopCas?
  {
    if PcOf(s, t).PopCas? {
      CurIsThere(s, g, t);
    }
    hide Inv, GoStep, Goto;
    GoesPop(s, t, choice);
    GotoFacts(s, t);
  }

  lemma CurIsThere(s: State, g: Aux, t: Tid)
    requires Inv(s, g) && PcOf(s, t).PopCas?
    ensures PcOf(s, t).cur != NULL
  {
    hide BlocksIn, StacksOk, NodesOk, SizesOk, MemoryOk, HandOk;
    assert ThreadOk(s, g, t);
  }

  /** In every run: a thread that looks at the full stack of its class, first or
      after a failed compare-and-swap, goes on with the node on top, and misses
      exactly if the stack is empty. */
  lemma PopTakesTheTop(states: seq<State>, steps: seq<Step>, i: nat, t: Tid, choice: Choice, stack: seq<Ptr>)
    requires IsRun(states, steps) && i < |steps| && steps[i] == Go(t, choice)
    requires PcOf(states[i], t).PopLoad? || PcOf(states[i], t).PopCas?
    requires FullStackIs(states[i], PcOf(states[i], t).c, stack)
    ensures PopGoesOn(PcOf(states[i + 1], t), PcOf(states[i], t).c, stack)
    ensures PcOf(states[i + 1], t).Exchange? ==> PcOf(states[i], t).PopCas?
  {
    hide Inv, GoStep, FullStackIs;
    assert Follows(states[i], steps[i], states[i + 1]);
    RunKeepsInv(states, steps, i);
    PopSeesStack(states[i], AuxAt(states, steps, i), t, choice, stack);
  }

  /** A thread inside a call is moved by its own steps only. */
  lemma OthersStay(s: State, step: Step, t: Tid)
    requires Enabled(s, step) && !PcOf(s, t).Idle? && !(step.Go? && step.t == t)
    ensures PcOf(Apply(s, step), t) == PcOf(s, t)
  {
    hide Shift, PageRun, GoStep, GoEnabled, Goto, At, FreshRun;
    match step
    case Go(u, choice) => OnlyMover(s, u, choice, t);
    case Malloc(u, _) => GotoFacts(s, u);
    case Free(u, _) => GotoFacts(s, u);
    case _ =>
  }

  /** A step of one thread leaves the others where they are. */
  lemma OnlyMover(s: State, t: Tid, choice: Choice, u: Tid)
    requires GoEnabled(s, t, choice) && u != t
    ensures PcOf(GoStep(s, t, choice), u) == PcOf(s, u)
  {
    hide GoStep, GoEnabled, AllocGo, PopGo, EmptyGo, FullGo, FreeGo;
    var pc := PcOf(s, t);
    if pc.TryLocal? || pc.TakeSwapped? || pc.TakePopped? || pc.Miss? {
      GoesAlloc(s, t, choice);
      AllocMoves(s, t, choice, u);
    } else if pc.PopLoad? || pc.PopNext? || pc.PopCas? {
      GoesPop(s, t, choice);
      PopMoves(s, t, choice, u);
    } else if pc.HoldsPopped() {
      GoesEmpty(s, t, choice);
      EmptyMoves(s, t, choice, u);
    } else if pc.HoldsNew() {
      GoesFull(s, t, choice);
      FullMoves(s, t, choice, u);
    } else {
      StandsInFree(s, t, choice);
      GoesFree(s, t, choice);
      FreeMoves(s, t, choice, u);
    }
  }

  lemma StandsInFree(s: State, t: Tid, choice: Choice)
    requires GoEnabled(s, t, choice) && !AllocPoint(PcOf(s, t)) && !PcOf(s, t).HoldsPopped() && !PcOf(s, t).HoldsNew()
    requires !(PcOf(s, t).PopLoad? || PcOf(s, t).PopNext? || PcOf(s, t).PopCas?)
    ensures PcOf(s, t).TryPut? || PcOf(s, t).NeedNode? || PcOf(s, t).PutLocal?
  {
  }

  lemma AllocMoves(s: State, t: Tid, choice: Choice, u: Tid)
    requires GoEnabled(s, t, choice) && u != t
    ensures PcOf(AllocGo(s, t, choice), u) == PcOf(s, u)
  {
    hide Shift, PageBlocks, PageRun, BlocksPerPage, PagesForBlock, BlockSize, BulkRoom, Fresh, FreshRun, Goto, At;
    GotoFacts(s, t);
  }

  lemma PopMoves(s: State, t: Tid, choice: Choice, u: Tid)
    requires u != t
    ensures PcOf(PopGo(s, t, choice), u) == PcOf(s, u)
  {
    hide Goto, Link;
    GotoFacts(s, t);
  }

  lemma EmptyMoves(s: State, t: Tid, choice: Choice, u: Tid)
    requires u != t
    ensures PcOf(EmptyGo(s, t, choice), u) == PcOf(s, u)
  {
    hide Goto, Link, Pour;
    GotoFacts(s, t);
  }

  lemma FullMoves(s: State, t: Tid, choice: Choice, u: Tid)
    requires u != t
    ensures PcOf(FullGo(s, t, choice), u) == PcOf(s, u)
  {
    hide Goto, Link, Pour;
    GotoFacts(s, t);
  }

  lemma FreeMoves(s: State, t: Tid, choice: Choice, u: Tid)
    requires u != t
    ensures PcOf(FreeGo(s, t, choice), u) == PcOf(s, u)
  {
    hide Goto, At, Shift;
    GotoFacts(s, t);
  }

  /** How far a thread is from the end of its call. */
  function Ahead(pc: Pc): nat {
    match pc
    case Idle => 0
    case TryLocal(_) => 12
    case TakeSwapped(_) => 11
    case PopLoad(_) => 10
    case PopNext(_, _) => 9
    case PopCas(_, _, _) => 8
    case Exchange(_, _) => 7
    case EmptyLoad(_, _) => 6
    case EmptyLink(_, _, _) => 5
    case EmptyCas(_, _, _) => 4
    case TakePopped(_) => 3
    case Miss(_) => 1
    case TryPut(_) => 8
    case NeedNode(_) => 7
    case Fill(_, _) => 6
    case FullLoad(_, _) => 5
    case FullLink(_, _, _) => 4
    case FullCas(_, _, _) => 3
    case PutLocal(_) => 1
  }

  /** The step is a compare-and-swap that fails, for no reason or because another
      thread has changed the head it saw. */
  predicate FailsToSwap(s: State, t: Tid, choice: Choice) {
    match PcOf(s, t)
    case PopCas(c, cur, _) => choice.Spurious? || FullHead(s, c) != cur
    case FullCas(c, _, cur) => choice.Spurious? || FullHead(s, c) != cur
    case EmptyCas(c, _, cur) => choice.Spurious? || EmptyHead(s, c) != cur
    case _ => false
  }

  /** No call gets stuck: every step brings it nearer to its end, except a
      compare-and-swap that fails. */
  lemma EveryStepAdvances(s: State, t: Tid, choice: Choice)
    requires GoEnabled(s, t, choice) && !FailsToSwap(s, t, choice)
    ensures Ahead(PcOf(GoStep(s, t, choice), t)) < Ahead(PcOf(s, t))
  {
    hide GoStep, GoEnabled, AllocGo, PopGo, EmptyGo, FullGo, FreeGo, FailsToSwap, Ahead;
    var pc := PcOf(s, t);
    if pc.TryLocal? || pc.TakeSwapped? || pc.TakePopped? || pc.Miss? {
      GoesAlloc(s, t, choice);
      AllocAdvances(s, t, choice);
    } else if pc.PopLoad? || pc.PopNext? || pc.PopCas? {
      GoesPop(s, t, choice);
      PopAdvances(s, t, choice);
    } else if pc.HoldsPopped() {
      GoesEmpty(s, t, choice);
      EmptyAdvances(s, t, choice);
    } else if pc.HoldsNew() {
      GoesFull(s, t, choice);
      FullAdvances(s, t, choice);
    } else {
      StandsInFree(s, t, choice);
      GoesFree(s, t, choice);
      FreeAdvances(s, t, choice);
    }
  }

  lemma AllocAdvances(s: State, t: Tid, choice: Choice)
    requires GoEnabled(s, t, choice) && AllocPoint(PcOf(s, t))
    ensures Ahead(PcOf(AllocGo(s, t, choice), t)) < Ahead(PcOf(s, t))
  {
    hide Shift, PageBlocks, PageRun, BlocksPerPage, PagesForBlock, BlockSize, BulkRoom, Fresh, FreshRun, Goto, At;
    GotoFacts(s, t);
  }

  lemma PopAdvances(s: State, t: Tid, choice: Choice)
    requires GoEnabled(s, t, choice) && !FailsToSwap(s, t, choice)
    requires PcOf(s, t).PopLoad? || PcOf(s, t).PopNext? || PcOf(s, t).PopCas?
    ensures Ahead(PcOf(PopGo(s, t, choice), t)) < Ahead(PcOf(s, t))
  {
    hide Goto, Link;
    GotoFacts(s, t);
  }

  lemma EmptyAdvances(s: State, t: Tid, choice: Choice)
    requires GoEnabled(s, t, choice) && !FailsToSwap(s, t, choice) && PcOf(s, t).HoldsPopped()
    ensures Ahead(PcOf(EmptyGo(s, t, choice), t)) < Ahead(PcOf(s, t))
  {
    hide Goto, Link, Pour;
    GotoFacts(s, t);
  }

  lemma FullAdvances(s: State, t: Tid, choice: Choice)
    requires GoEnabled(s, t, choice) && !FailsToSwap(s, t, choice) && PcOf(s, t).HoldsNew()
    ensures Ahead(PcOf(FullGo(s, t, choice), t)) < Ahead(PcOf(s, t))
  {
    hide Goto, Link, Pour;
    GotoFacts(s, t);
  }

  lemma FreeAdvances(s: State, t: Tid, choice: Choice)
    requires PcOf(s, t).TryPut? || PcOf(s, t).NeedNode? || PcOf(s, t).PutLocal?
    ensures Ahead(PcOf(FreeGo(s, t, choice), t)) < Ahead(PcOf(s, t))
  {
    hide Goto, At, Shift;
    GotoFacts(s, t);
  }

  /** Only a look at the full stack leads to a miss. */
  lemma MissComesFromPop(s: State, g: Aux, t: Tid, choice: Choice)
    requires Inv(s, g) && GoEnabled(s, t, choice) && PcOf(GoStep(s, t, choice), t).Miss?
    ensures PcOf(s, t).PopLoad? || PcOf(s, t).PopCas?
    ensures PcOf(GoStep(s, t, choice), t).c == PcOf(s, t).c && BothEmpty(s, t, PcOf(s, t).c)
  {
    hide Inv, GoStep, BothEmpty, PopGo, AllocGo, EmptyGo, FullGo, FreeGo;
    var pc := PcOf(s, t);
    if AllocPoint(pc) {
      GoesAlloc(s, t, choice);
      AllocNeverMisses(s, g, t, choice);
    } else if pc.PopLoad? || pc.PopNext? || pc.PopCas? {
      GoesPop(s, t, choice);
      PopMisses(s, g, t, choice);
    } else if pc.HoldsPopped() {
      GoesEmpty(s, t, choice);
      EmptyNeverMisses(s, t, choice);
    } else if pc.HoldsNew() {
      GoesFull(s, t, choice);
      FullNeverMisses(s, t, choice);
    } else {
      StandsInFree(s, t, choice);
      GoesFree(s, t, choice);
      FreeNeverMisses(s, t, choice);
    }
  }

  lemma AllocNeverMisses(s: State, g: Aux, t: Tid, choice: Choice)
    requires Inv(s, g) && GoEnabled(s, t, choice) && AllocPoint(PcOf(s, t))
    ensures !PcOf(AllocGo(s, t, choice), t).Miss?
  {
    hide Inv, Shift, PageBlocks, PageRun, BlocksPerPage, PagesForBlock, BlockSize, BulkRoom, Fresh, FreshRun, Goto, At;
    hide CarvePage, CarveSingle;
    ThreadFacts(s, g, t);
    GotoFacts(s, t);
    if PcOf(s, t).Miss? {
      CarvedEnds(s, t, choice);
    }
  }

  lemma CarvedEnds(s: State, t: Tid, choice: Choice)
    requires GoEnabled(s, t, choice) && PcOf(s, t).Miss?
    ensures PcOf(AllocGo(s, t, choice), t) == Idle
  {
    hide PageBlocks, PageRun, BlocksPerPage, PagesForBlock, BlockSize, BulkRoom, Fresh, FreshRun, Goto, At;
    GotoFacts(s, t);
  }

  lemma PopMisses(s: State, g: Aux, t: Tid, choice: Choice)
    requires Inv(s, g) && (PcOf(s, t).PopLoad? || PcOf(s, t).PopNext? || PcOf(s, t).PopCas?)
    ensures BothEmpty(s, t, PcOf(s, t).c)
    ensures var pc' := PcOf(PopGo(s, t, choice), t); pc'.Miss? ==> !PcOf(s, t).PopNext? && pc'.c == PcOf(s, t).c
  {
    hide Inv, BothEmpty, PopGo;
    BothAreEmpty(s, g, t);
    PopMissesAt(s, t, choice);
  }

  lemma PopMissesAt(s: State, t: Tid, choice: Choice)
    requires PcOf(s, t).PopLoad? || PcOf(s, t).PopNext? || PcOf(s, t).PopCas?
    ensures var pc' := PcOf(PopGo(s, t, choice), t); pc'.Miss? ==> !PcOf(s, t).PopNext? && pc'.c == PcOf(s, t).c
  {
    hide Goto, Link;
    GotoFacts(s, t);
  }

  lemma BothAreEmpty(s: State, g: Aux, t: Tid)
    requires Inv(s, g) && (PcOf(s, t).PopLoad? || PcOf(s, t).PopNext? || PcOf(s, t).PopCas? || PcOf(s, t).Miss?)
    ensures BothEmpty(s, t, PcOf(s, t).c)
  {
    hide BlocksIn, StacksOk, NodesOk, SizesOk, MemoryOk, HandOk, BothEmpty;
    assert ThreadOk(s, g, t);
  }

  lemma EmptyNeverMisses(s: State, t: Tid, choice: Choice)
    requires PcOf(s, t).HoldsPopped()
    ensures !PcOf(EmptyGo(s, t, choice), t).Miss?
  {
    hide Goto, Link, Pour;
    GotoFacts(s, t);
  }

  lemma FullNeverMisses(s: State, t: Tid, choice: Choice)
    requires PcOf(s, t).HoldsNew()
    ensures !PcOf(FullGo(s, t, choice), t).Miss?
  {
    hide Goto, Link, Pour;
    GotoFacts(s, t);
  }

  lemma FreeNeverMisses(s: State, t: Tid, choice: Choice)
    requires PcOf(s, t).TryPut? || PcOf(s, t).NeedNode? || PcOf(s, t).PutLocal?
    ensures !PcOf(FreeGo(s, t, choice), t).Miss?
  {
    hide Goto, At, Shift;
    GotoFacts(s, t);
  }

  /** In every run: a thread comes to a miss only when both its magazines and the
      full stack of its class are empty. */
  lemma MissOnlyWhenEmpty(states: seq<State>, steps: seq<Step>, i: nat, t: Tid)
    requires IsRun(states, steps) && i < |steps| && !PcOf(states[i], t).Miss? && PcOf(states[i + 1], t).Miss?
    ensures var c := PcOf(states[i + 1], t).c;
            && BothEmpty(states[i], t, c) && FullStackIs(states[i], c, [])
            && steps[i].Go? && steps[i].t == t
  {
    hide Inv, GoStep, BothEmpty, FullStackIs, Enabled, Apply, PopGoesOn;
    var s, e, g := states[i], steps[i], AuxAt(states, steps, i);
    assert Follows(s, e, states[i + 1]);
    RunKeepsInv(states, steps, i);
    MoverOf(s, e, t);
    MissComesFromPop(s, g, t, e.choice);
    var c := PcOf(s, t).c;
    StackOfAux(s, g, c);
    PopTakesTheTop(states, steps, i, t, e.choice, FullOf(g, c));
    MissIsEmpty(PcOf(states[i + 1], t), c, FullOf(g, c));
  }

  lemma MissIsEmpty(pc: Pc, c: nat, stack: seq<Ptr>)
    requires PopGoesOn(pc, c, stack) && pc.Miss?
    ensures stack == []
  {
  }

  lemma MoverOf(s: State, e: Step, t: Tid)
    requires Enabled(s, e) && !PcOf(s, t).Miss? && PcOf(Apply(s, e), t).Miss?
    ensures e.Go? && e.t == t && GoEnabled(s, t, e.choice) && Apply(s, e) == GoStep(s, t, e.choice)
  {
    hide Shift, PageRun, GoStep, GoEnabled, Goto, At, FreshRun;
    match e
    case Go(u, choice) =>
      if u != t {
        OnlyMover(s, u, choice, t);
      }
    case Malloc(u, _) => GotoFacts(s, u);
    case Free(u, _) => GotoFacts(s, u);
    case _ =>
  }

  /** In every run `alloc` returns null only if no page came, both magazines of the
      thread are empty, and the full stack of the class was empty when it last looked,
      since when it has not moved. */
  lemma {:induction false} NullMeansEmpty(states: seq<State>, steps: seq<Step>, i: nat, t: Tid) returns (j: nat)
    requires IsRun(states, steps) && i <= |steps| && PcOf(states[i], t).Miss?
    ensures var c := PcOf(states[i], t).c;
            && j < i && FullStackIs(states[j], c, []) && BothEmpty(states[j], t, c) && BothEmpty(states[i], t, c)
            && forall k :: j < k <= i ==> PcOf(states[k], t) == Miss(c)
    decreases i
  {
    hide Inv, BothEmpty, FullStackIs, Enabled, Apply;
    RunKeepsInv(states, steps, i);
    BothAreEmpty(states[i], AuxAt(states, steps, i), t);
    if i > 0 {
      assert Follows(states[i - 1], steps[i - 1], states[i - 1 + 1]);
      if PcOf(states[i - 1], t).Miss? {
        MissStays(states[i - 1], AuxAt(states, steps, i - 1), steps[i - 1], t) by { RunKeepsInv(states, steps, i - 1); }
        j := NullMeansEmpty(states, steps, i - 1, t);
      } else {
        MissOnlyWhenEmpty(states, steps, i - 1, t);
        j := i - 1;
      }
    }
  }

  lemma MissStays(s: State, g: Aux, e: Step, t: Tid)
    requires Inv(s, g) && Enabled(s, e) && PcOf(s, t).Miss? && PcOf(Apply(s, e), t).Miss?
    ensures PcOf(Apply(s, e), t) == PcOf(s, t)
  {
    hide Inv, Enabled, Apply;
    if e.Go? && e.t == t {
      MissEnds(s, e, t);
    } else {
      OthersStay(s, e, t);
    }
  }

  lemma MissEnds(s: State, e: Step, t: Tid)
    requires Enabled(s, e) && e.Go? && e.t == t && PcOf(s, t).Miss?
    ensures PcOf(Apply(s, e), t) == Idle
  {
    hide GoStep, AllocGo, GoEnabled;
    GoesAlloc(s, t, e.choice);
    CarvedEnds(s, t, e.choice);
  }

  /** In every run, `free` ends with the block in hand at the end of the thread's
      free magazine, or dropped if no node came for the full one; and the node it
      filled on the way has exactly what the magazine held. */
  lemma FreeEndsInMagazine(states: seq<State>, steps: seq<Step>, i: nat, t: Tid, choice: Choice)
    requires IsRun(states, steps) && i < |steps| && steps[i] == Go(t, choice) && PcOf(states[i], t).Freeing()
    ensures var s, s', pc := states[i], states[i + 1], PcOf(states[i], t);
            && |At(s.box, InHand(t, pc.c))| == 1
            && (if PcOf(s', t).Idle? then At(s'.box, InHand(t, pc.c)) == [] && PutDown(s, s', t, pc.c, choice)
                else PcOf(s', t).Freeing() && PcOf(s', t).c == pc.c)
            && (pc.Fill? ==> NodeMag(s', pc.node) == FreeMag(s, t, pc.c) && FreeMag(s', t, pc.c) == [])
  {
    hide Inv, GoStep, GoEnabled, PutDown;
    assert Follows(states[i], steps[i], states[i + 1]);
    RunKeepsInv(states, steps, i);
    FreeStepOf(states[i], AuxAt(states, steps, i), t, choice);
  }

  ghost predicate PutDown(s: State, s': State, t: Tid, c: nat, choice: Choice) {
    var hand := At(s.box, InHand(t, c));
    if choice.NoNode? then At(s'.box, Leaked) == At(s.box, Leaked) + hand && FreeMag(s', t, c) == FreeMag(s, t, c)
    else FreeMag(s', t, c) == FreeMag(s, t, c) + hand
  }

  lemma FreeStepOf(s: State, g: Aux, t: Tid, choice: Choice)
    requires Inv(s, g) && GoEnabled(s, t, choice) && PcOf(s, t).Freeing()
    ensures var s', pc := GoStep(s, t, choice), PcOf(s, t);
            && |At(s.box, InHand(t, pc.c))| == 1
            && (if PcOf(s', t).Idle? then At(s'.box, InHand(t, pc.c)) == [] && PutDown(s, s', t, pc.c, choice)
                else PcOf(s', t).Freeing() && PcOf(s', t).c == pc.c)
            && (pc.Fill? ==> NodeMag(s', pc.node) == FreeMag(s, t, pc.c) && FreeMag(s', t, pc.c) == [])
  {
    hide Inv, GoStep, GoEnabled, PutDown, FreeGo, FullGo;
    HandAndRoom(s, g, t);
    if PcOf(s, t).HoldsNew() {
      GoesFull(s, t, choice);
      FullStaysFreeing(s, t, choice);
    } else {
      GoesFree(s, t, choice);
      FreePutsDown(s, t, choice);
    }
  }

  lemma HandAndRoom(s: State, g: Aux, t: Tid)
    requires Inv(s, g) && PcOf(s, t).Freeing()
    ensures |At(s.box, InHand(t, PcOf(s, t).c))| == 1
    ensures PcOf(s, t).NeedNode? ==> |FreeMag(s, t, PcOf(s, t).c)| == MAGAZINE_CAPACITY
    ensures PcOf(s, t).PutLocal? ==> FreeMag(s, t, PcOf(s, t).c) == []
  {
    hide BlocksIn, StacksOk, NodesOk, SizesOk, MemoryOk;
    assert ThreadOk(s, g, t);
  }

  lemma FullStaysFreeing(s: State, t: Tid, choice: Choice)
    requires PcOf(s, t).HoldsNew()
    ensures var s', pc := FullGo(s, t, choice), PcOf(s, t);
            && PcOf(s', t).Freeing() && PcOf(s', t).c == pc.c
            && (pc.Fill? ==> NodeMag(s', pc.node) == FreeMag(s, t, pc.c) && FreeMag(s', t, pc.c) == [])
  {
    hide Goto, Link;
    GotoFacts(s, t);
  }

  lemma FreePutsDown(s: State, t: Tid, choice: Choice)
    requires PcOf(s, t).TryPut? || PcOf(s, t).NeedNode? || PcOf(s, t).PutLocal?
    requires GoEnabled(s, t, choice) && |At(s.box, InHand(t, PcOf(s, t).c))| == 1
    requires PcOf(s, t).NeedNode? ==> |FreeMag(s, t, PcOf(s, t).c)| == MAGAZINE_CAPACITY
    requires PcOf(s, t).PutLocal? ==> FreeMag(s, t, PcOf(s, t).c) == []
    ensures var s', c := FreeGo(s, t, choice), PcOf(s, t).c;
            if PcOf(s', t).Idle? then At(s'.box, InHand(t, c)) == [] && PutDown(s, s', t, c, choice)
            else PcOf(s', t).Freeing() && PcOf(s', t).c == c
  {
    hide PutStep, Goto;
    GotoFacts(s, t);
    PutFacts(s, t, PcOf(s, t).c);
  }

  lemma PutFacts(s: State, t: Tid, c: nat)
    requires |At(s.box, InHand(t, c))| == 1
    ensures var s' := PutStep(s, t, c);
            && PcOf(s', t) == Idle && At(s'.box, InHand(t, c)) == []
            && (if |FreeMag(s, t, c)| < MAGAZINE_CAPACITY then
                  FreeMag(s', t, c) == FreeMag(s, t, c) + At(s.box, InHand(t, c))
                else
                  && At(s'.box, Leaked) == At(s.box, Leaked) + At(s.box, InHand(t, c))
                  && FreeMag(s', t, c) == FreeMag(s, t, c))
  {
    var hand := At(s.box, InHand(t, c));
    assert hand == [hand[0]] && hand[..0] + hand[1..] == [];
  }
}
