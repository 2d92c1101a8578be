/** How many threads may pop from the global lists of the simple-cache build: with
    one all is well in every run, with two there is a run with a stale pop. */
module SimpleCacheRace {
  import opened Common
  import opened BlockLayout
  import opened LinkedLists
  import opened SimpleCache
  import opened SimpleCacheMachine

  predicate PopperBelow(e: Step, n: nat) {
    e.PopLoad? || e.PopNext? || e.PopSwap? ==> e.t < n
  }

  ghost predicate PoppersBelow(steps: seq<Step>, n: nat) {
    forall i :: 0 <= i < |steps| ==> PopperBelow(steps[i], n)
  }

  /** Every run in which only threads below `n` pop keeps the invariant. */
  ghost predicate SafeFor(n: nat) {
    forall states: seq<State>, steps: seq<Step>, i: nat ::
      IsRun(states, steps) && PoppersBelow(steps, n) && i <= |steps| ==> Inv(states[i])
  }

  // ------------------------------------------------------------------
  // One popping thread
  // ------------------------------------------------------------------

  ghost predicate OnlyZeroPops(s: State) {
    forall t: Tid :: t > 0 ==> !PcOf(s, t).Popping()
  }

  lemma ZeroKeepsPopping(s: State, e: Step)
    requires OnlyZeroPops(s) && Enabled(s, e) && PopperBelow(e, 1) && Framed(s, After(s, e), e.t)
    ensures OnlyZeroPops(After(s, e))
  {
    hide After, Enabled;
    if e.t > 0 {
      NotPopping(s, e);
    }
  }

  lemma {:induction false} OneIsApart(states: seq<State>, steps: seq<Step>, i: nat)
    requires IsRun(states, steps) && PoppersBelow(steps, 1) && i <= |steps|
    ensures NeverStale(states, steps, i) && Inv(states[i]) && OnlyZeroPops(states[i])
            && forall t: Tid :: Reliable(states[i], t)
    decreases i
  {
    hide Inv, Enabled, After, Stale, Reliable, Framed, OnlyZeroPops, PopperBelow;
    if i == 0 {
      InitialInv();
      InitialReliable();
      assert OnlyZeroPops(INITIAL) by { NonePops(); }
    } else {
      OneIsApart(states, steps, i - 1);
      var s, e := states[i - 1], steps[i - 1];
      assert Succ(states, i - 1) == After(s, e);
      ReliableIsNotStale(s, e);
      StepKeepsInv(s, e);
      ZeroKeepsPopping(s, e);
      StepKeepsReliable(s, e) by { ZeroIsApart(s); }
    }
  }

  lemma NonePops()
    ensures OnlyZeroPops(INITIAL)
  {
  }

  lemma ZeroIsApart(s: State)
    requires OnlyZeroPops(s)
    ensures PopsApart(s)
  {
  }

  // ------------------------------------------------------------------
  // Reaching states with two popping threads
  // ------------------------------------------------------------------

  /** A run without stale pops, of two popping threads, leads to `s`. */
  ghost predicate Good(s: State) {
    exists states: seq<State>, steps: seq<Step> ::
      IsRun(states, steps) && NeverStale(states, steps, |steps|) && PoppersBelow(steps, 2) && states[|steps|] == s
  }

  lemma GoodStart()
    ensures Good(INITIAL)
  {
    var states, steps: seq<Step> := [INITIAL], [];
    assert IsRun(states, steps) && NeverStale(states, steps, 0) && PoppersBelow(steps, 2);
  }

  lemma GoodInv(s: State)
    requires Good(s)
    ensures Inv(s)
  {
    hide Enabled, After, NeverStale, PoppersBelow, Inv;
    var states: seq<State>, steps: seq<Step> :|
      IsRun(states, steps) && NeverStale(states, steps, |steps|) && PoppersBelow(steps, 2) && states[|steps|] == s;
    RunKeepsInv(states, steps, |steps|);
  }

  lemma RunsOn(states: seq<State>, steps: seq<Step>, e: Step)
    requires IsRun(states, steps) && Enabled(states[|steps|], e)
    ensures IsRun(states + [After(states[|steps|], e)], steps + [e])
  {
    hide Enabled, After;
    var states', steps' := states + [After(states[|steps|], e)], steps + [e];
    forall i | 0 <= i < |steps'|
      ensures Enabled(states'[i], steps'[i]) && Succ(states', i) == After(states'[i], steps'[i])
    {
      if i < |steps| {
        assert Succ(states', i) == Succ(states, i) && states'[i] == states[i] && steps'[i] == steps[i];
      }
    }
  }

  /** What a step of thread `t` leaves: the other threads and their lists, and who
      of all blocks but `b` is with the program. */
  ghost predicate Only(s: State, s': State, t: Tid, b: nat) {
    && (forall u: Tid :: u != t ==> PcOf(s', u) == PcOf(s, u) && Own(s', u) == Own(s, u))
    && (forall x :: x in s.place && x != b ==> x in s'.place && (s'.place[x].Live? <==> s.place[x].Live?))
  }

  /** The class of the largest cached size; all blocks are of it. */
  const CLS: nat := ClassFor(CacheSize(MAX_CACHE_SIZE))

  function Own(s: State, t: Tid): seq<nat> { List(s, Local(t, CLS)) }
  function All(s: State): seq<nat> { List(s, Global(CLS)) }

  ghost predicate OneClass(s: State) {
    forall x :: x in s.kinds ==> s.kinds[x] == CLS
  }

  lemma OnlyBoth(s: State, s1: State, s2: State, t: Tid, b: nat)
    requires Only(s, s1, t, b) && Only(s1, s2, t, b)
    ensures Only(s, s2, t, b)
  {
    hide PcOf, Own;
  }

  lemma OnlyMore(s: State, s': State, t: Tid, b: nat)
    requires Only(s, s', t, 0) && 0 !in s.place
    ensures Only(s, s', t, b)
  {
    hide PcOf, Own;
  }

  lemma GoodNext(s: State, e: Step)
    requires Good(s) && Enabled(s, e) && !Stale(s.m, e) && PopperBelow(e, 2)
    ensures Good(After(s, e))
  {
    hide Enabled, After, Stale, PopperBelow;
    var states: seq<State>, steps: seq<Step> :|
      IsRun(states, steps) && NeverStale(states, steps, |steps|) && PoppersBelow(steps, 2) && states[|steps|] == s;
    RunsOn(states, steps, e);
    StaysFresh(states, steps, e);
    var states', steps' := states + [After(s, e)], steps + [e];
    hide IsRun, NeverStale, PoppersBelow;
    assert states'[|steps'|] == After(s, e);
  }

  lemma StaysFresh(states: seq<State>, steps: seq<Step>, e: Step)
    requires |states| == |steps| + 1 && NeverStale(states, steps, |steps|) && PoppersBelow(steps, 2)
    requires Enabled(states[|steps|], e) && !Stale(states[|steps|].m, e) && PopperBelow(e, 2)
    ensures NeverStale(states + [After(states[|steps|], e)], steps + [e], |steps| + 1) && PoppersBelow(steps + [e], 2)
  {
    hide Enabled, After, Stale, PopperBelow;
    var states', steps' := states + [After(states[|steps|], e)], steps + [e];
    forall i | 0 <= i < |steps'|
      ensures !Stale(states'[i].m, steps'[i]) && PopperBelow(steps'[i], 2)
    {
      if i < |steps| {
        assert states'[i] == states[i] && steps'[i] == steps[i];
      }
    }
  }

  /** A step goes on with the run. */
  lemma Goes(s: State, e: Step, b: nat)
    requires Good(s) && Enabled(s, e) && !Stale(s.m, e) && PopperBelow(e, 2)
    requires (Handed(s, e) == None || Handed(s, e) == Some(b)) && (e.StartFree? ==> e.b == b)
    ensures Good(After(s, e)) && Inv(After(s, e)) && Only(s, After(s, e), e.t, b)
  {
    hide Inv, Enabled, After, Stale, Handed, PopperBelow, Conserves, Framed, Good, Only;
    GoodInv(s);
    StepKeepsInv(s, e);
    StepConserves(s, e);
    OnlyOf(s, e, b);
    GoodNext(s, e);
  }

  lemma OnlyOf(s: State, e: Step, b: nat)
    requires Enabled(s, e) && Conserves(s, e, After(s, e)) && Framed(s, After(s, e), e.t)
    requires (Handed(s, e) == None || Handed(s, e) == Some(b)) && (e.StartFree? ==> e.b == b)
    ensures Only(s, After(s, e), e.t, b)
  {
    hide After, Enabled, Handed, Carved, ClassOf, PcOf, ListAt, GlobalMoves, Moves;
  }

  // ------------------------------------------------------------------
  // Allocating and freeing
  // ------------------------------------------------------------------

  ghost predicate Set(s: State) {
    Good(s) && OneClass(s)
  }

  predicate LiveBlock(s: State, b: nat) {
    b in s.place && s.place[b] == Live
  }

  lemma HeadsOf(s: State, k: Key)
    requires Good(s)
    ensures Head(s, k) == 0 <==> List(s, k) == []
    ensures List(s, k) != [] ==> Head(s, k) == List(s, k)[0]
    ensures |List(s, k)| > 1 ==> Word(s.m, Head(s, k)) == List(s, k)[1]
    ensures 0 !in s.place
  {
    hide Good;
    GoodInv(s);
    StoreChain(s, k);
    if |List(s, k)| > 0 {
      LinkedWalk(s.m.links, Head(s, k), List(s, k), 0);
    }
  }

  /** With nothing cached, an allocation maps a block. */
  lemma MapsOne(s: State, t: Tid, b: nat) returns (s': State)
    requires Set(s) && PcOf(s, t) == Idle && Own(s, t) == [] && All(s) == [] && b > 0 && b !in s.place
    ensures Set(s') && PcOf(s', t) == Idle && Own(s', t) == [] && All(s') == []
    ensures s'.place == s.place[b := Live] && Only(s, s', t, b)
  {
    hide Good, Only, Inv, PlacesApart, CacheSize, ClassFor, BlocksPerPage, Filled;
    HeadsOf(s, Local(t, CLS));
    HeadsOf(s, Global(CLS));
    var e := StartAlloc(t, MAX_CACHE_SIZE);
    Goes(s, e, b);
    var s1 := After(s, e);
    assert s1 == Goto(s, t, Missing(CLS, MAX_CACHE_SIZE));
    var e1 := Serve(t, None, Some(b));
    Goes(s1, e1, b);
    s' := After(s1, e1);
    OnlyBoth(s, s1, s', t, b);
  }

  lemma FreeStep(s: State, t: Tid, b: nat)
    requires Set(s) && PcOf(s, t) == Idle && LiveBlock(s, b)
    ensures Enabled(s, StartFree(t, b))
    ensures var s', n := After(s, StartFree(t, b)), |Own(s, t)| + 1;
            && Set(s') && Own(s', t) == [b] + Own(s, t) && All(s') == All(s) && Only(s, s', t, b)
            && s'.place == s.place[b := In(Local(t, CLS))]
            && PcOf(s', t) == if n >= MAX_FREE_LIST_LENGTH then Walking(CLS, n / 2, b, b, 1) else Idle
  {
    hide Good, Only, StoreOk, ThreadOk, CacheSize, ClassFor;
    GoodInv(s);
    FreeReadsClass(s, b);
    PlacedIsNotZero(s, b);
    PutKeeps(s, t, CLS, b);
    Goes(s, StartFree(t, b), b);
  }

  /** A hit in the own list. */
  lemma Takes(s: State, t: Tid) returns (s': State)
    requires Set(s) && PcOf(s, t) == Idle && Own(s, t) != []
    ensures Set(s') && PcOf(s', t) == Idle && Own(s', t) == Own(s, t)[1..] && All(s') == All(s)
    ensures LiveBlock(s', Own(s, t)[0]) && Only(s, s', t, Own(s, t)[0])
  {
    hide Good, Only, Inv, CacheSize, ClassFor;
    HeadsOf(s, Local(t, CLS));
    var e := StartAlloc(t, MAX_CACHE_SIZE);
    Goes(s, e, Own(s, t)[0]);
    s' := After(s, e);
  }

  // ------------------------------------------------------------------
  // Flushing
  // ------------------------------------------------------------------

  /** What steps of a flush leave. */
  ghost predicate Flushing(s: State, s': State, t: Tid) {
    Set(s') && Only(s, s', t, 0) && s'.kinds == s.kinds
  }

  lemma FlushBoth(s: State, s1: State, s2: State, t: Tid)
    requires Flushing(s, s1, t) && Flushing(s1, s2, t)
    ensures Flushing(s, s2, t)
  {
    hide Set, Only;
    OnlyBoth(s, s1, s2, t, 0);
  }

  lemma WalkingAt(s: State, t: Tid)
    requires Good(s) && PcOf(s, t).Walking? && PcOf(s, t).c == CLS
    ensures var pc := PcOf(s, t);
            && 1 <= pc.walked <= pc.n == MAX_FREE_LIST_LENGTH / 2 && |Own(s, t)| == MAX_FREE_LIST_LENGTH && pc.tail != 0
  {
    hide Good, Inv, Fits, BatchOk, ListAt, CacheSize, ClassFor;
    GoodInv(s);
    PointAt(s, t);
  }

  lemma PointAt(s: State, t: Tid)
    requires Inv(s)
    ensures PointOk(s, t)
  {
    hide StoreOk, HandOk, LengthsOk, PointOk;
    assert ThreadOk(s, t);
  }

  /** The walk to the middle of the list. */
  lemma {:induction false} Walks(s: State, t: Tid) returns (s': State)
    requires Set(s) && PcOf(s, t).Walking? && PcOf(s, t).c == CLS
    ensures Flushing(s, s', t) && s'.lists == s.lists && |Own(s, t)| == MAX_FREE_LIST_LENGTH
    ensures PcOf(s', t).Walking? && PcOf(s', t).c == CLS && PcOf(s', t).walked == PcOf(s', t).n
    decreases MAX_FREE_LIST_LENGTH - PcOf(s, t).walked
  {
    hide Good, Inv, Cut, Only, CacheSize, ClassFor, BlocksPerPage;
    WalkingAt(s, t);
    if PcOf(s, t).walked == PcOf(s, t).n {
      s' := s;
      OnlyNothing(s, t);
    } else {
      Goes(s, Walk(t), 0);
      var s1 := After(s, Walk(t));
      WalkingAt(s1, t);
      s' := Walks(s1, t);
      FlushBoth(s, s1, s', t);
    }
  }

  lemma OnlyNothing(s: State, t: Tid)
    ensures Only(s, s, t, 0)
  {
  }

  /** The cut and the push. */
  lemma CutsAndPushes(s: State, t: Tid) returns (s': State)
    requires Set(s) && PcOf(s, t).Walking? && PcOf(s, t).c == CLS && PcOf(s, t).walked == PcOf(s, t).n
    ensures |Own(s, t)| == MAX_FREE_LIST_LENGTH && Flushing(s, s', t) && PcOf(s', t) == Idle
    ensures All(s') == Own(s, t)[..MAX_FREE_LIST_LENGTH / 2] + All(s)
  {
    hide Good, Inv, Only, Word, Rehomed, CacheSize, ClassFor, BlocksPerPage;
    WalkingAt(s, t);
    Goes(s, Walk(t), 0);
    var s1 := After(s, Walk(t));
    Goes(s1, PushLoad(t), 0);
    var s2 := After(s1, PushLoad(t));
    Goes(s2, PushLink(t), 0);
    var s3 := After(s2, PushLink(t));
    Goes(s3, PushSwap(t, false), 0);
    s' := After(s3, PushSwap(t, false));
    OnlyBoth(s, s1, s2, t, 0);
    OnlyBoth(s, s2, s3, t, 0);
    OnlyBoth(s, s3, s', t, 0);
  }

  /** Freeing the 4096th block moves the latest 2048 to the global list. */
  lemma FreesAndFlushes(s: State, t: Tid, b: nat) returns (s': State)
    requires Set(s) && PcOf(s, t) == Idle && LiveBlock(s, b) && |Own(s, t)| == MAX_FREE_LIST_LENGTH - 1
    ensures Set(s') && PcOf(s', t) == Idle && Only(s, s', t, b)
    ensures All(s') == ([b] + Own(s, t))[..MAX_FREE_LIST_LENGTH / 2] + All(s)
  {
    hide Good, Only, Inv, Enabled, After, CacheSize, ClassFor;
    FreeStep(s, t, b);
    var s1 := After(s, StartFree(t, b));
    var s2 := Walks(s1, t);
    s' := CutsAndPushes(s2, t);
    FlushBoth(s1, s2, s', t);
    assert 0 !in s1.place by { HeadsOf(s1, Global(CLS)); }
    OnlyMore(s1, s', t, b);
    OnlyBoth(s, s1, s', t, b);
  }

  // ------------------------------------------------------------------
  // Batches
  // ------------------------------------------------------------------

  /** A pop, without interruption. */
  lemma Pops(s: State, t: Tid, moved: nat) returns (s': State)
    requires t < 2 && Set(s) && PcOf(s, t) == Batch(CLS, MAX_CACHE_SIZE, moved) && moved < GLOBAL_FREE_BATCH
             && All(s) != []
    ensures Set(s') && PcOf(s', t) == Holding(CLS, MAX_CACHE_SIZE, moved, All(s)[0]) && Only(s, s', t, 0)
    ensures Own(s', t) == Own(s, t) && All(s') == All(s)[1..]
  {
    hide Good, Only, Inv, Ended, CacheSize, ClassFor, BlocksPerPage;
    HeadsOf(s, Global(CLS));
    var s2 := Reads(s, t, moved);
    Goes(s2, PopSwap(t, false), 0);
    s' := After(s2, PopSwap(t, false));
    OnlyBoth(s, s2, s', t, 0);
  }

  /** The first half of a pop. */
  lemma Reads(s: State, t: Tid, moved: nat) returns (s': State)
    requires t < 2 && Set(s) && PcOf(s, t) == Batch(CLS, MAX_CACHE_SIZE, moved) && moved < GLOBAL_FREE_BATCH
             && All(s) != []
    ensures var head := Head(s, Global(CLS));
            && head != 0 && s' == s.(m := s.m.(pc := s'.m.pc)) && Set(s') && Only(s, s', t, 0)
            && PcOf(s', t) == ToPop(CLS, MAX_CACHE_SIZE, moved, head, Word(s.m, head))
  {
    hide Good, Only, Inv, Ended, CacheSize, ClassFor, BlocksPerPage;
    HeadsOf(s, Global(CLS));
    Goes(s, PopLoad(t), 0);
    var s1 := After(s, PopLoad(t));
    Goes(s1, PopNext(t), 0);
    s' := After(s1, PopNext(t));
    OnlyBoth(s, s1, s', t, 0);
  }

  /** One block of a batch. */
  lemma MovesOne(s: State, t: Tid, moved: nat) returns (s': State)
    requires t < 2 && Set(s) && PcOf(s, t) == Batch(CLS, MAX_CACHE_SIZE, moved) && moved < GLOBAL_FREE_BATCH
             && All(s) != []
    ensures Set(s') && PcOf(s', t) == Batch(CLS, MAX_CACHE_SIZE, moved + 1) && Only(s, s', t, 0)
    ensures Own(s', t) == [All(s)[0]] + Own(s, t) && All(s') == All(s)[1..]
  {
    hide Good, Only, Inv, Enabled, After, CacheSize, ClassFor;
    var s1 := Pops(s, t, moved);
    PutsOne(s1, t, moved, All(s)[0]);
    s' := After(s1, BatchPut(t));
    OnlyBoth(s, s1, s', t, 0);
  }

  lemma PutsOne(s: State, t: Tid, moved: nat, b: nat)
    requires Set(s) && PcOf(s, t) == Holding(CLS, MAX_CACHE_SIZE, moved, b)
    ensures Enabled(s, BatchPut(t))
    ensures var s' := After(s, BatchPut(t));
            && Set(s') && PcOf(s', t) == Batch(CLS, MAX_CACHE_SIZE, moved + 1) && Only(s, s', t, 0)
            && Own(s', t) == [b] + Own(s, t) && All(s') == All(s)
  {
    hide Good, Only, Inv, PutFirst, CacheSize, ClassFor, BlocksPerPage;
    Goes(s, BatchPut(t), 0);
  }

  // ------------------------------------------------------------------
  // Many blocks
  // ------------------------------------------------------------------

  /** Other threads are as they were, and live blocks not in `xs` are live. */
  ghost predicate Frames(s: State, s': State, t: Tid, xs: seq<nat>) {
    && (forall u: Tid :: u != t ==> PcOf(s', u) == PcOf(s, u) && Own(s', u) == Own(s, u))
    && (forall y :: LiveBlock(s, y) && y !in xs ==> LiveBlock(s', y))
  }

  lemma OnlyFrames(s: State, s': State, t: Tid, b: nat, xs: seq<nat>)
    requires Only(s, s', t, b) && (LiveBlock(s, b) ==> b in xs)
    ensures Frames(s, s', t, xs)
  {
    hide PcOf, Own;
  }

  lemma FramesBoth(s: State, s1: State, s2: State, t: Tid, xs: seq<nat>)
    requires Frames(s, s1, t, xs) && Frames(s1, s2, t, xs)
    ensures Frames(s, s2, t, xs)
  {
    hide PcOf, Own, LiveBlock;
  }

  /** Freeing the blocks of `xs` one by one. */
  lemma {:induction false} FreesMany(s: State, t: Tid, xs: seq<nat>) returns (s': State)
    requires Set(s) && PcOf(s, t) == Idle && Distinct(xs) && (forall y :: y in xs ==> LiveBlock(s, y))
             && |Own(s, t)| + |xs| < MAX_FREE_LIST_LENGTH
    ensures Set(s') && PcOf(s', t) == Idle && |Own(s', t)| == |Own(s, t)| + |xs| && All(s') == All(s)
    ensures xs != [] ==> Own(s', t)[0] == xs[|xs| - 1]
    ensures Frames(s, s', t, xs)
    decreases |xs|
  {
    hide Set, LiveBlock, Enabled, After, Own, All, CacheSize, ClassFor;
    s' := s;
    if xs != [] {
      var n := |xs| - 1;
      var rest, b := xs[..n], xs[n];
      assert forall y :: y in rest ==> y in xs;
      var s1 := FreesMany(s, t, rest);
      assert b !in rest && b in xs;
      FreeStep(s1, t, b);
      s' := After(s1, StartFree(t, b));
      FramesMore(s, s1, t, rest, xs);
      OnlyFrames(s1, s', t, b, xs);
      FramesBoth(s, s1, s', t, xs);
    }
  }

  lemma FramesMore(s: State, s': State, t: Tid, xs: seq<nat>, ys: seq<nat>)
    requires Frames(s, s', t, xs) && forall y :: y in xs ==> y in ys
    ensures Frames(s, s', t, ys)
  {
    hide PcOf, Own, LiveBlock;
  }

  /** The first `n` blocks of the global list move to a thread's own, empty one;
      the first of all lands at its end. */
  lemma {:induction false} MovesMany(s: State, t: Tid, n: nat) returns (s': State)
    requires t < 2 && Set(s) && PcOf(s, t) == Batch(CLS, MAX_CACHE_SIZE, 0) && Own(s, t) == []
    requires n <= GLOBAL_FREE_BATCH && n <= |All(s)|
    ensures Set(s') && PcOf(s', t) == Batch(CLS, MAX_CACHE_SIZE, n) && |Own(s', t)| == n && |All(s')| == |All(s)| - n
    ensures n > 0 ==> Own(s', t)[n - 1] == All(s)[0]
    ensures n == 0 ==> All(s') == All(s)
    ensures Frames(s, s', t, [])
    decreases n
  {
    hide Set, LiveBlock, Own, All, CacheSize, ClassFor;
    s' := s;
    if n > 0 {
      var s1 := MovesMany(s, t, n - 1);
      assert 0 !in s1.place by { SetPlaces(s1); }
      s' := MovesOne(s1, t, n - 1);
      NotLive(s1, 0);
      OnlyFrames(s1, s', t, 0, []);
      FramesBoth(s, s1, s', t, []);
    }
  }

  lemma SetPlaces(s: State)
    requires Set(s)
    ensures 0 !in s.place
  {
    hide Good;
    HeadsOf(s, Global(CLS));
  }

  lemma NotLive(s: State, b: nat)
    requires b !in s.place
    ensures !LiveBlock(s, b)
  {
  }

  /** A full batch ends with a hit. */
  lemma BatchEnds(s: State, t: Tid) returns (s': State)
    requires t < 2 && Set(s) && PcOf(s, t) == Batch(CLS, MAX_CACHE_SIZE, GLOBAL_FREE_BATCH) && Own(s, t) != []
    ensures Set(s') && PcOf(s', t) == Idle && Own(s', t) == Own(s, t)[1..] && All(s') == All(s)
    ensures Only(s, s', t, Own(s, t)[0])
  {
    hide Good, Only, Inv, CacheSize, ClassFor, BlocksPerPage;
    HeadsOf(s, Local(t, CLS));
    Goes(s, PopLoad(t), Own(s, t)[0]);
    s' := After(s, PopLoad(t));
  }

  lemma ListedIsNotLive(s: State, t: Tid, b: nat)
    requires Set(s) && b in Own(s, t)
    ensures !LiveBlock(s, b)
  {
    hide Good, StoreOk, ThreadOk;
    GoodInv(s);
    Listed(s, t, CLS, b);
  }

  /** Hits until the own list is empty; its last block becomes live. */
  lemma {:induction false} TakesAll(s: State, t: Tid) returns (s': State)
    requires Set(s) && PcOf(s, t) == Idle && Own(s, t) != []
    ensures Set(s') && PcOf(s', t) == Idle && Own(s', t) == [] && All(s') == All(s)
    ensures LiveBlock(s', Own(s, t)[|Own(s, t)| - 1]) && Frames(s, s', t, [])
    decreases |Own(s, t)|
  {
    hide Set, LiveBlock, Own, All, CacheSize, ClassFor, Only, Frames;
    var b := Own(s, t)[0];
    ListedIsNotLive(s, t, b);
    var s1 := Takes(s, t);
    OnlyFrames(s, s1, t, b, []);
    s' := s1;
    if |Own(s, t)| > 1 {
      s' := TakesAll(s1, t);
      FramesBoth(s, s1, s', t, []);
    }
  }

  // ------------------------------------------------------------------
  // The run
  // ------------------------------------------------------------------

  /** Nothing is cached, all threads are idle, and `xs` are live blocks, all blocks
      being below `top`. */
  ghost predicate Supply(s: State, xs: seq<nat>, top: nat) {
    && Set(s) && All(s) == [] && (forall u: Tid :: PcOf(s, u) == Idle && Own(s, u) == [])
    && Distinct(xs) && (forall y :: y in xs ==> LiveBlock(s, y)) && top > 0 && (forall y :: y in s.place ==> y < top)
  }

  lemma StartSupply()
    ensures Supply(INITIAL, [], 1)
  {
    hide Good, CacheSize, ClassFor;
    GoodStart();
  }

  lemma {:induction false} Supplies(s: State, xs: seq<nat>, top: nat, n: nat) returns (s': State, xs': seq<nat>)
    requires Supply(s, xs, top)
    ensures |xs'| == |xs| + n && exists top' :: Supply(s', xs', top')
    decreases n
  {
    hide Supply;
    s', xs' := s, xs;
    if n > 0 {
      var s1 := SuppliesOne(s, xs, top);
      s', xs' := Supplies(s1, xs + [top], top + 1, n - 1);
    }
  }

  lemma SuppliesOne(s: State, xs: seq<nat>, top: nat) returns (s': State)
    requires Supply(s, xs, top)
    ensures Supply(s', xs + [top], top + 1)
  {
    hide Set, CacheSize, ClassFor;
    assert PcOf(s, 2) == Idle && Own(s, 2) == [];
    s' := MapsOne(s, 2, top);
    AddDistinct(xs, top);
    forall y | y in xs + [top]
      ensures LiveBlock(s', y)
    {
      assert y in xs ==> LiveBlock(s, y);
    }
  }

  lemma AddDistinct(xs: seq<nat>, b: nat)
    requires Distinct(xs) && b !in xs
    ensures Distinct(xs + [b])
  {
  }

  /** Thread 2 frees 4096 blocks: the latest is first on the global list, the one
      before second. */
  lemma FillsGlobal(s: State, xs: seq<nat>) returns (s': State)
    requires |xs| == 4096 && Set(s) && PcOf(s, 2) == Idle && Own(s, 2) == [] && All(s) == []
    requires Distinct(xs) && forall y :: y in xs ==> LiveBlock(s, y)
    ensures Set(s') && |All(s')| == 2048 && All(s')[0] == xs[4095] && All(s')[1] == xs[4094]
    ensures Frames(s, s', 2, xs)
  {
    hide Set, LiveBlock, CacheSize, ClassFor, Own, All;
    var most, b := xs[..4095], xs[4095];
    assert Distinct(most) && forall y :: y in most ==> y in xs;
    assert b !in most && b in xs;
    var s1 := FreesMany(s, 2, most);
    assert LiveBlock(s1, b);
    s' := FreesAndFlushes(s1, 2, b);
    FramesMore(s, s1, 2, most, xs);
    OnlyFrames(s1, s', 2, b, xs);
    FramesBoth(s, s1, s', 2, xs);
  }

  /** An allocation with an empty own list and a global one. */
  lemma StartsBatch(s: State, t: Tid) returns (s': State)
    requires Set(s) && PcOf(s, t) == Idle && Own(s, t) == [] && All(s) != []
    ensures s' == s.(m := s.m.(pc := s'.m.pc)) && Set(s') && PcOf(s', t) == Batch(CLS, MAX_CACHE_SIZE, 0)
    ensures Only(s, s', t, 0)
  {
    hide Good, Only, Inv, CacheSize, ClassFor;
    HeadsOf(s, Local(t, CLS));
    HeadsOf(s, Global(CLS));
    var e := StartAlloc(t, MAX_CACHE_SIZE);
    Goes(s, e, 0);
    s' := After(s, e);
  }

  /** Thread 0 has read the first block of the global list and its successor. */
  lemma Stalls(s: State) returns (s': State)
    requires Set(s) && PcOf(s, 0) == Idle && Own(s, 0) == [] && |All(s)| > 1
    ensures Set(s') && PcOf(s', 0) == ToPop(CLS, MAX_CACHE_SIZE, 0, All(s)[0], All(s)[1])
    ensures All(s') == All(s) && Frames(s, s', 0, [])
  {
    hide Good, CacheSize, ClassFor, Only;
    HeadsOf(s, Global(CLS));
    var s1 := StartsBatch(s, 0);
    s' := Reads(s1, 0, 0);
    OnlyBoth(s, s1, s', 0, 0);
    NotLive(s, 0);
    OnlyFrames(s, s', 0, 0, []);
  }

  /** Thread 1 takes a batch from the global list and uses all of it: what was first
      on that list is live. */
  lemma Empties(s: State) returns (s': State)
    requires Set(s) && PcOf(s, 1) == Idle && Own(s, 1) == [] && |All(s)| > GLOBAL_FREE_BATCH
    ensures Set(s') && PcOf(s', 1) == Idle && Own(s', 1) == [] && LiveBlock(s', All(s)[0])
    ensures Frames(s, s', 1, [])
  {
    hide Set, LiveBlock, CacheSize, ClassFor, Own, All, Only, Frames;
    SetPlaces(s);
    NotLive(s, 0);
    var s1 := StartsBatch(s, 1);
    assert Own(s1, 1) == Own(s, 1) && All(s1) == All(s) by { SameLists(s, s1); }
    OnlyFrames(s, s1, 1, 0, []);
    var s2 := MovesMany(s1, 1, GLOBAL_FREE_BATCH);
    FramesBoth(s, s1, s2, 1, []);
    var b := Own(s2, 1)[0];
    ListedIsNotLive(s2, 1, b);
    var s3 := BatchEnds(s2, 1);
    OnlyFrames(s2, s3, 1, b, []);
    FramesBoth(s, s2, s3, 1, []);
    s' := TakesAll(s3, 1);
    FramesBoth(s, s3, s', 1, []);
  }

  lemma SameLists(s: State, s': State)
    requires s'.lists == s.lists
    ensures All(s') == All(s) && forall t: Tid :: Own(s', t) == Own(s, t)
  {
  }

  /** Thread 1 frees 4095 blocks and then `b`, which is first on the global list
      again, with another block behind it. */
  lemma BringsBack(s: State, ys: seq<nat>, b: nat) returns (s': State)
    requires |ys| == 4095 && Set(s) && PcOf(s, 1) == Idle && Own(s, 1) == []
    requires Distinct(ys) && (forall y :: y in ys ==> LiveBlock(s, y)) && LiveBlock(s, b) && b !in ys
    ensures Set(s') && |All(s')| > 1 && All(s')[0] == b && All(s')[1] == ys[4094] && PcOf(s', 0) == PcOf(s, 0)
  {
    hide Set, LiveBlock, CacheSize, ClassFor, Own, All;
    var s1 := FreesMany(s, 1, ys);
    assert LiveBlock(s1, b);
    s' := FreesAndFlushes(s1, 1, b);
  }

  /** Two popping threads come to a stale pop. */
  lemma TwoPoppersGoStale() returns (s: State)
    ensures Good(s) && Enabled(s, PopSwap(0, false)) && Stale(s.m, PopSwap(0, false))
  {
    hide Good, CacheSize, ClassFor, Frames;
    StartSupply();
    var s0, xs := Supplies(INITIAL, [], 1, 8191);
    var one, two := xs[..4096], xs[4096..];
    HalvesOf(xs, 4096);
    assert PcOf(s0, 0) == Idle && PcOf(s0, 1) == Idle && PcOf(s0, 2) == Idle;
    assert Own(s0, 0) == [] && Own(s0, 1) == [] && Own(s0, 2) == [];
    assert (forall y :: y in one ==> LiveBlock(s0, y)) && (forall y :: y in two ==> LiveBlock(s0, y));
    hide Set, LiveBlock, Own, All;
    var s1 := FillsGlobal(s0, one);
    FramesAt(s0, s1, 2, one, two, 0);
    FramesAt(s0, s1, 2, one, two, 1);
    var s2 := Stalls(s1);
    FramesAt(s1, s2, 0, [], two, 1);
    var s3 := Empties(s2);
    FramesAt(s2, s3, 1, [], two, 0);
    assert xs[4095] in one && xs[4095] !in two;
    s := BringsBack(s3, two, xs[4095]);
    assert xs[4094] in one && two[4094] in two;
    IsStale(s, xs[4095], xs[4094], two[4094]);
  }

  lemma HalvesOf(xs: seq<nat>, n: nat)
    requires Distinct(xs) && n <= |xs|
    ensures Distinct(xs[..n]) && Distinct(xs[n..]) && forall y :: y in xs[n..] ==> y in xs && y !in xs[..n]
    ensures forall y :: y in xs[..n] ==> y in xs && y !in xs[n..]
  {
    assert xs == xs[..n] + xs[n..];
    Halves(xs, n);
  }

  lemma FramesAt(s: State, s': State, t: Tid, xs: seq<nat>, ys: seq<nat>, u: Tid)
    requires Frames(s, s', t, xs) && u != t && forall y :: y in ys ==> LiveBlock(s, y) && y !in xs
    ensures PcOf(s', u) == PcOf(s, u) && Own(s', u) == Own(s, u) && forall y :: y in ys ==> LiveBlock(s', y)
  {
    hide LiveBlock, PcOf, Own;
  }

  lemma IsStale(s: State, b: nat, next: nat, other: nat)
    requires Set(s) && |All(s)| > 1 && All(s)[0] == b && All(s)[1] == other && other != next
    requires PcOf(s, 0) == ToPop(CLS, MAX_CACHE_SIZE, 0, b, next)
    ensures Good(s) && Enabled(s, PopSwap(0, false)) && Stale(s.m, PopSwap(0, false))
  {
    hide Good, CacheSize, ClassFor;
    HeadsOf(s, Global(CLS));
  }

  /** The simple-cache build keeps its lists, counts and blocks in order, in every
      run in which `n` threads pop from the global lists and any number push, if
      and only if `n` is at most 1. */
  lemma SafeForOnePopperOnly(n: nat)
    ensures SafeFor(n) <==> n <= 1
  {
    hide Inv, Enabled, After, Stale;
    if n <= 1 {
      forall states: seq<State>, steps: seq<Step>, i: nat |
        IsRun(states, steps) && PoppersBelow(steps, n) && i <= |steps|
        ensures Inv(states[i])
      {
        assert PoppersBelow(steps, 1);
        OneIsApart(states, steps, i);
      }
    } else {
      BrokenRun(n);
    }
  }

  lemma BrokenRun(n: nat)
    requires n >= 2
    ensures !SafeFor(n)
  {
    hide Inv, Enabled, After, Stale, NeverStale, PopperBelow;
    var s := TwoPoppersGoStale();
    var e := PopSwap(0, false);
    var states: seq<State>, steps: seq<Step> :|
      IsRun(states, steps) && NeverStale(states, steps, |steps|) && PoppersBelow(steps, 2) && states[|steps|] == s;
    RunsOn(states, steps, e);
    GoodInv(s);
    StaleBreaks(s, e);
    MorePoppers(steps, e, n);
    var states', steps' := states + [After(s, e)], steps + [e];
    assert !Inv(states'[|steps'|]);
  }

  lemma MorePoppers(steps: seq<Step>, e: Step, n: nat)
    requires n >= 2 && PoppersBelow(steps, 2) && PopperBelow(e, 2)
    ensures PoppersBelow(steps + [e], n)
  {
  }
}
