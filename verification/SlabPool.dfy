/** The lock-free stack of free slabs, linked through their first word.

    Any number of threads push and pop; each load, link write, next-read and
    compare-and-swap is a step, and a weak compare-and-swap may fail for no
    reason.  A popped slab belongs to its caller, who may write to it and push it
    again.  The stack has no version tag: a run is that of a LIFO stack exactly if
    no pop succeeds with a stale successor.  With one popping thread, and in every
    run in which no two pops overlap, that is so; with two it is not. */
module SlabPool {
  import opened Common

  type Tid = nat
  type Ptr = nat

  datatype PushPc = NotPushing | ToLoad(slab: Ptr) | ToLink(slab: Ptr, was: Ptr) | ToCas(slab: Ptr, was: Ptr)

  datatype PopPc = NotPopping | Started | Loaded(head: Ptr) | Read(head: Ptr, next: Ptr)
  {
    /** The pop has read the head. */
    predicate Reading() { Loaded? || Read? }
  }

  datatype Place = Owned | Pushing(t: Tid) | Pooled

  /** `place` records who has each slab. */
  datatype State = State(
    head: Ptr,
    next: map<Ptr, Ptr>,
    push: map<Tid, PushPc>,
    pop: map<Tid, PopPc>,
    place: map<Ptr, Place>)

  function PushOf(s: State, t: Tid): PushPc { if t in s.push then s.push[t] else NotPushing }
  function PopOf(s: State, t: Tid): PopPc { if t in s.pop then s.pop[t] else NotPopping }
  function NextOf(s: State, p: Ptr): Ptr { if p in s.next then s.next[p] else 0 }

  ghost predicate At(s: State, p: Ptr, where: Place) { p in s.place && s.place[p] == where }

  datatype Step =
    | Begin(t: Tid, slab: Ptr)
    | PushLoad(t: Tid)
    | PushLink(t: Tid)
    | PushCas(t: Tid, spurious: bool)
    | BeginPop(t: Tid)
    | PopLoad(t: Tid)
    | PopNext(t: Tid)
    | PopCas(t: Tid, spurious: bool)
    | Scribble(slab: Ptr, value: Ptr)

  ghost predicate Enabled(s: State, e: Step) {
    match e
    case Begin(t, slab) => PushOf(s, t).NotPushing? && slab != 0 && At(s, slab, Owned)
    case PushLoad(t) => PushOf(s, t).ToLoad?
    case PushLink(t) => PushOf(s, t).ToLink?
    case PushCas(t, _) => PushOf(s, t).ToCas?
    case BeginPop(t) => PopOf(s, t).NotPopping?
    case PopLoad(t) => PopOf(s, t).Started?
    case PopNext(t) => PopOf(s, t).Loaded?
    case PopCas(t, _) => PopOf(s, t).Read?
    case Scribble(slab, _) => At(s, slab, Owned)
  }

  ghost function After(s: State, e: Step): State
    requires Enabled(s, e)
  {
    match e
    case Begin(t, slab) => s.(push := s.push[t := ToLoad(slab)], place := s.place[slab := Pushing(t)])
    case PushLoad(t) => s.(push := s.push[t := ToLink(PushOf(s, t).slab, s.head)])
    case PushLink(t) =>
      var pc := PushOf(s, t);
      s.(next := s.next[pc.slab := pc.was], push := s.push[t := ToCas(pc.slab, pc.was)])
    case PushCas(t, spurious) =>
      var pc := PushOf(s, t);
      if s.head == pc.was && !spurious then
        s.(head := pc.slab, push := s.push[t := NotPushing], place := s.place[pc.slab := Pooled])
      else s.(push := s.push[t := ToLoad(pc.slab)])
    case BeginPop(t) => s.(pop := s.pop[t := Started])
    case PopLoad(t) => s.(pop := s.pop[t := if s.head == 0 then NotPopping else Loaded(s.head)])
    case PopNext(t) => s.(pop := s.pop[t := Read(PopOf(s, t).head, NextOf(s, PopOf(s, t).head))])
    case PopCas(t, spurious) =>
      var pc := PopOf(s, t);
      if s.head == pc.head && !spurious then
        s.(head := pc.next, pop := s.pop[t := NotPopping], place := s.place[pc.head := Owned])
      else s.(pop := s.pop[t := Started])
    case Scribble(slab, value) => s.(next := s.next[slab := value])
  }

  // ------------------------------------------------------------------
  // The atomic stack it stands for
  // ------------------------------------------------------------------

  datatype Event = Quiet | Pushes(slab: Ptr) | Pops(slab: Ptr) | FindsEmpty

  /** What the caller of `push` or `pop` sees of a step. */
  ghost function Seen(s: State, e: Step): Event
    requires Enabled(s, e)
  {
    match e
    case PushCas(t, spurious) => if s.head == PushOf(s, t).was && !spurious then Pushes(PushOf(s, t).slab) else Quiet
    case PopCas(t, spurious) => if s.head == PopOf(s, t).head && !spurious then Pops(PopOf(s, t).head) else Quiet
    case PopLoad(t) => if s.head == 0 then FindsEmpty else Quiet
    case _ => Quiet
  }

  /** The stack before and after an event, first element on top. */
  ghost predicate Lifo(x: seq<Ptr>, e: Event, y: seq<Ptr>) {
    match e
    case Quiet => y == x
    case Pushes(slab) => slab !in x && y == [slab] + x
    case Pops(slab) => x != [] && slab == x[0] && y == x[1..]
    case FindsEmpty => x == [] && y == []
  }

  // ------------------------------------------------------------------
  // The invariant
  // ------------------------------------------------------------------

  function Item(stack: seq<Ptr>, i: nat): Ptr { if i < |stack| then stack[i] else 0 }

  /** The links from the head spell `stack`, which is exactly the pooled slabs. */
  ghost predicate Chained(s: State, stack: seq<Ptr>) {
    && s.head == Item(stack, 0)
    && Distinct(stack)
    && (forall i :: 0 <= i < |stack| ==> stack[i] != 0 && NextOf(s, stack[i]) == Item(stack, i + 1))
    && (forall p :: p in stack <==> At(s, p, Pooled))
  }

  /** A pusher has its slab to itself, and has linked it before it swaps. */
  ghost predicate PusherOk(s: State, t: Tid) {
    match PushOf(s, t)
    case NotPushing => true
    case ToCas(slab, was) => slab != 0 && At(s, slab, Pushing(t)) && NextOf(s, slab) == was
    case pc => pc.slab != 0 && At(s, pc.slab, Pushing(t))
  }

  ghost predicate PopperOk(s: State, t: Tid) {
    PopOf(s, t).Reading() ==> PopOf(s, t).head != 0
  }

  ghost predicate Inv(s: State, stack: seq<Ptr>) {
    && Chained(s, stack)
    && (forall t: Tid :: PusherOk(s, t))
    && (forall t: Tid :: PopperOk(s, t))
    && SlabsOk(s)
  }

  /** A slab that is being pushed is in the hands of a thread that is at it. */
  ghost predicate SlabsOk(s: State) {
    forall p: Ptr, t: Tid :: At(s, p, Pushing(t)) ==> !PushOf(s, t).NotPushing? && PushOf(s, t).slab == p
  }

  /** A pop succeeds though its slab has another successor by now. */
  ghost predicate Stale(s: State, e: Step) {
    e.PopCas? && !e.spurious && PopOf(s, e.t).Read? && s.head == PopOf(s, e.t).head
    && PopOf(s, e.t).next != NextOf(s, s.head)
  }

  // ------------------------------------------------------------------
  // Every step
  // ------------------------------------------------------------------

  lemma PushChains(s: State, stack: seq<Ptr>, t: Tid)
    requires Inv(s, stack) && Enabled(s, PushCas(t, false)) && s.head == PushOf(s, t).was
    ensures PushOf(s, t).slab !in stack && Chained(After(s, PushCas(t, false)), [PushOf(s, t).slab] + stack)
  {
    hide PopperOk;
    var pc, s' := PushOf(s, t), After(s, PushCas(t, false));
    var stack' := [pc.slab] + stack;
    assert PusherOk(s, t);
    assert pc.slab !in stack;
    forall i | 0 <= i < |stack'|
      ensures stack'[i] != 0 && NextOf(s', stack'[i]) == Item(stack', i + 1)
    {
      if i > 0 { assert stack'[i] == stack[i - 1]; }
    }
  }

  lemma PopTakesTop(s: State, stack: seq<Ptr>, t: Tid)
    requires Inv(s, stack) && Enabled(s, PopCas(t, false)) && s.head == PopOf(s, t).head
    ensures stack != [] && stack[0] == s.head && NextOf(s, s.head) == Item(stack, 1)
  {
    hide PusherOk;
    assert PopperOk(s, t);
  }

  lemma PopChains(s: State, stack: seq<Ptr>, t: Tid)
    requires Inv(s, stack) && Enabled(s, PopCas(t, false)) && s.head == PopOf(s, t).head
             && !Stale(s, PopCas(t, false))
    ensures stack != [] && Chained(After(s, PopCas(t, false)), stack[1..])
  {
    PopTakesTop(s, stack, t);
    hide PusherOk, PopperOk;
    var s', stack' := After(s, PopCas(t, false)), stack[1..];
    assert stack == [stack[0]] + stack';
    forall i | 0 <= i < |stack'|
      ensures stack'[i] != 0 && NextOf(s', stack'[i]) == Item(stack', i + 1)
    {
      assert stack'[i] == stack[i + 1];
    }
    forall p
      ensures p in stack' <==> At(s', p, Pooled)
    {
      assert p in stack <==> p == stack[0] || p in stack';
      if p in stack' {
        var i :| 0 <= i < |stack'| && stack'[i] == p;
        assert stack[i + 1] == p;
      }
    }
  }

  lemma QuietChained(s: State, stack: seq<Ptr>, e: Step)
    requires Inv(s, stack) && Enabled(s, e) && (Seen(s, e).Quiet? || Seen(s, e).FindsEmpty?)
    ensures Chained(After(s, e), stack)
  {
    hide PopperOk;
    var s' := After(s, e);
    if e.PushLink? {
      assert PusherOk(s, e.t);
    }
    forall i | 0 <= i < |stack|
      ensures NextOf(s', stack[i]) == Item(stack, i + 1)
    {
      assert stack[i] in stack;
      assert At(s, stack[i], Pooled);
    }
    forall p
      ensures p in stack <==> At(s', p, Pooled)
    {
      assert p in stack <==> At(s, p, Pooled);
    }
  }

  lemma ThreadsKept(s: State, stack: seq<Ptr>, e: Step, u: Tid)
    requires Inv(s, stack) && Enabled(s, e)
    ensures PusherOk(After(s, e), u) && PopperOk(After(s, e), u)
  {
    assert PusherOk(s, u) && PopperOk(s, u);
    if e.PopCas? && Seen(s, e).Pops? {
      PopTakesTop(s, stack, e.t);
      assert At(s, s.head, Pooled) by { assert s.head in stack; }
    }
    hide Chained;
    if !e.Begin? && !e.Scribble? {
      assert PusherOk(s, e.t) && PopperOk(s, e.t);
    }
  }

  lemma SlabsKept(s: State, stack: seq<Ptr>, e: Step)
    requires Inv(s, stack) && Enabled(s, e)
    ensures SlabsOk(After(s, e)) && After(s, e).place.Keys == s.place.Keys
  {
    if e.PopCas? && Seen(s, e).Pops? {
      PopTakesTop(s, stack, e.t);
      assert At(s, s.head, Pooled) by { assert s.head in stack; }
    }
    hide Chained;
    if e.PushCas? {
      assert PusherOk(s, e.t);
    }
    forall p: Ptr, t: Tid | At(After(s, e), p, Pushing(t))
      ensures !PushOf(After(s, e), t).NotPushing? && PushOf(After(s, e), t).slab == p
    {
      assert At(s, p, Pushing(t)) || (e.Begin? && e.t == t && e.slab == p);
    }
  }

  /** Each step but a stale pop is one event of the atomic stack, and keeps the
      invariant and the slabs. */
  lemma StepRefines(s: State, stack: seq<Ptr>, e: Step) returns (stack': seq<Ptr>)
    requires Inv(s, stack) && Enabled(s, e) && !Stale(s, e)
    ensures Inv(After(s, e), stack') && Lifo(stack, Seen(s, e), stack') && After(s, e).place.Keys == s.place.Keys
  {
    hide PusherOk, PopperOk, At, SlabsOk;
    SlabsKept(s, stack, e);
    forall u: Tid ensures PusherOk(After(s, e), u) && PopperOk(After(s, e), u) {
      ThreadsKept(s, stack, e, u);
    }
    match Seen(s, e) {
      case Pushes(slab) =>
        stack' := [slab] + stack;
        PushChains(s, stack, e.t);
      case Pops(slab) =>
        stack' := if stack == [] then [] else stack[1..];
        PopTakesTop(s, stack, e.t);
        PopChains(s, stack, e.t);
      case _ =>
        stack' := stack;
        QuietChained(s, stack, e);
    }
  }

  /** A push ends by putting its slab on the stack and in no other way, however
      often its compare-and-swap fails; a pop ends by taking the slab it returns off
      the stack or on an empty pool. */
  lemma OperationsEndByEvents(s: State, e: Step, t: Tid)
    requires Enabled(s, e)
    ensures !PushOf(s, t).NotPushing? && PushOf(After(s, e), t).NotPushing? <==>
              e.PushCas? && e.t == t && Seen(s, e) == Pushes(PushOf(s, t).slab)
    ensures !PopOf(s, t).NotPopping? && PopOf(After(s, e), t).NotPopping? <==>
              || (e.PopCas? && e.t == t && Seen(s, e) == Pops(PopOf(s, t).head))
              || (e.PopLoad? && e.t == t && Seen(s, e) == FindsEmpty)
    ensures PushOf(s, t).NotPushing? && !PushOf(After(s, e), t).NotPushing? ==>
              e.Begin? && e.t == t && PushOf(After(s, e), t).slab == e.slab
    ensures !PushOf(s, t).NotPushing? && !PushOf(After(s, e), t).NotPushing? ==>
              PushOf(After(s, e), t).slab == PushOf(s, t).slab
  {
    hide At;
  }

  /** After a stale pop the links no longer spell the stack. */
  lemma StaleBreaks(s: State, stack: seq<Ptr>, e: Step, stack': seq<Ptr>)
    requires Inv(s, stack) && Stale(s, e) && Lifo(stack, Seen(s, e), stack')
    ensures !Chained(After(s, e), stack')
  {
    hide PusherOk;
    PopTakesTop(s, stack, e.t);
  }

  // ------------------------------------------------------------------
  // Runs
  // ------------------------------------------------------------------

  /** The slabs exist and are owned, nothing is pooled. */
  ghost predicate Initial(s: State) {
    && s.head == 0 && s.push == map[] && s.pop == map[]
    && forall p :: p in s.place ==> s.place[p] == Owned
  }

  ghost predicate CanRun(s: State, steps: seq<Step>)
    decreases |steps|
  {
    steps == [] || (Enabled(s, steps[0]) && CanRun(After(s, steps[0]), steps[1..]))
  }

  /** From state `s`, with stack `x`, what callers see is what a LIFO stack shows. */
  ghost predicate LooksLifo(s: State, steps: seq<Step>, x: seq<Ptr>)
    decreases |steps|
  {
    steps == [] ||
    (Enabled(s, steps[0]) &&
     exists y :: Lifo(x, Seen(s, steps[0]), y) && LooksLifo(After(s, steps[0]), steps[1..], y))
  }

  /** The same, and at each moment the links from the head spell that stack, which
      is exactly the pooled slabs; every other slab is with its owner or with a
      thread that is pushing it. */
  ghost predicate StaysLifo(s: State, steps: seq<Step>, x: seq<Ptr>)
    decreases |steps|
  {
    Chained(s, x) && SlabsOk(s) &&
    (steps == [] ||
     (Enabled(s, steps[0]) && After(s, steps[0]).place.Keys == s.place.Keys &&
      exists y :: Lifo(x, Seen(s, steps[0]), y) && StaysLifo(After(s, steps[0]), steps[1..], y)))
  }

  ghost predicate NeverStale(s: State, steps: seq<Step>)
    decreases |steps|
  {
    steps == [] || (Enabled(s, steps[0]) && !Stale(s, steps[0]) && NeverStale(After(s, steps[0]), steps[1..]))
  }

  lemma InitialInv(s: State)
    requires Initial(s)
    ensures Inv(s, [])
  {
  }

  lemma {:induction false} StaysIff(s: State, steps: seq<Step>, x: seq<Ptr>)
    requires Inv(s, x) && CanRun(s, steps)
    ensures StaysLifo(s, steps, x) <==> NeverStale(s, steps)
    decreases |steps|
  {
    hide Enabled, After, Seen, Lifo, Stale, PusherOk, PopperOk, Chained, SlabsOk;
    if steps != [] {
      var e, s', rest := steps[0], After(s, steps[0]), steps[1..];
      if Stale(s, e) {
        forall y | Lifo(x, Seen(s, e), y)
          ensures !StaysLifo(s', rest, y)
        {
          StaleBreaks(s, x, e, y);
        }
      } else {
        var y := StepRefines(s, x, e);
        StaysIff(s', rest, y);
        forall z | Lifo(x, Seen(s, e), z)
          ensures z == y
        {
          LifoDetermines(x, Seen(s, e), y, z);
        }
      }
    }
  }

  lemma LifoDetermines(x: seq<Ptr>, e: Event, y: seq<Ptr>, z: seq<Ptr>)
    requires Lifo(x, e, y) && Lifo(x, e, z)
    ensures y == z
  {
  }

  /** An interleaving is a run of an atomic LIFO stack -- pushed slabs come out last
      in, first out, none twice, none lost, and the links always spell the pooled
      slabs -- if and only if no pop succeeds with a stale successor. */
  lemma RunIsLifo(s: State, steps: seq<Step>)
    requires Initial(s) && CanRun(s, steps)
    ensures StaysLifo(s, steps, []) <==> NeverStale(s, steps)
  {
    hide StaysLifo, NeverStale, CanRun, Inv;
    InitialInv(s);
    StaysIff(s, steps, []);
  }

  lemma {:induction false} StaysLooks(s: State, steps: seq<Step>, x: seq<Ptr>)
    requires StaysLifo(s, steps, x)
    ensures LooksLifo(s, steps, x)
    decreases |steps|
  {
    hide Enabled, After, Seen, Lifo, Chained, SlabsOk;
    if steps != [] {
      var y :| Lifo(x, Seen(s, steps[0]), y) && StaysLifo(After(s, steps[0]), steps[1..], y);
      StaysLooks(After(s, steps[0]), steps[1..], y);
    }
  }

  // ------------------------------------------------------------------
  // Operations run alone
  // ------------------------------------------------------------------

  /** The state a run ends in. */
  ghost function End(s: State, steps: seq<Step>): State
    requires CanRun(s, steps)
    decreases |steps|
  {
    if steps == [] then s else End(After(s, steps[0]), steps[1..])
  }

  /** Whatever other threads are at, four steps of its own complete a push. */
  lemma PushAlone(s: State, x: seq<Ptr>, t: Tid, slab: Ptr)
    requires Inv(s, x) && PushOf(s, t).NotPushing? && slab != 0 && At(s, slab, Owned)
    ensures var steps := [Begin(t, slab), PushLoad(t), PushLink(t), PushCas(t, false)];
            CanRun(s, steps) && Inv(End(s, steps), [slab] + x) && PushOf(End(s, steps), t).NotPushing?
  {
    hide Inv, At;
    var s1 := After(s, Begin(t, slab));
    var s2 := After(s1, PushLoad(t));
    var s3 := After(s2, PushLink(t));
    var s4 := After(s3, PushCas(t, false));
    var x1 := StepRefines(s, x, Begin(t, slab));
    var x2 := StepRefines(s1, x1, PushLoad(t));
    var x3 := StepRefines(s2, x2, PushLink(t));
    var x4 := StepRefines(s3, x3, PushCas(t, false));
    hide Enabled, After;
    RunOfFour(s, Begin(t, slab), s1, PushLoad(t), s2, PushLink(t), s3, PushCas(t, false), s4);
  }

  /** And of a pop, which returns the top, or nothing if the pool is empty. */
  lemma PopAlone(s: State, x: seq<Ptr>, t: Tid)
    requires Inv(s, x) && PopOf(s, t).NotPopping?
    ensures var steps := [BeginPop(t), PopLoad(t)] + if x == [] then [] else [PopNext(t), PopCas(t, false)];
            && CanRun(s, steps) && Inv(End(s, steps), if x == [] then [] else x[1..])
            && PopOf(End(s, steps), t).NotPopping? && (x != [] ==> At(End(s, steps), x[0], Owned))
  {
    HeadIsTop(s, x);
    hide Inv;
    var s1 := After(s, BeginPop(t));
    var s2 := After(s1, PopLoad(t));
    var x1 := StepRefines(s, x, BeginPop(t));
    var x2 := StepRefines(s1, x1, PopLoad(t));
    if x == [] {
      assert [BeginPop(t), PopLoad(t)] + [] == [BeginPop(t), PopLoad(t)];
      hide Enabled, After;
      RunOfTwo(s, BeginPop(t), s1, PopLoad(t), s2);
    } else {
      var s3 := After(s2, PopNext(t));
      var s4 := After(s3, PopCas(t, false));
      var x3 := StepRefines(s2, x2, PopNext(t));
      var x4 := StepRefines(s3, x3, PopCas(t, false));
      assert [BeginPop(t), PopLoad(t)] + [PopNext(t), PopCas(t, false)]
          == [BeginPop(t), PopLoad(t), PopNext(t), PopCas(t, false)];
      hide Enabled, After;
      RunOfFour(s, BeginPop(t), s1, PopLoad(t), s2, PopNext(t), s3, PopCas(t, false), s4);
    }
  }

  lemma HeadIsTop(s: State, x: seq<Ptr>)
    requires Inv(s, x)
    ensures if x == [] then s.head == 0 else s.head == x[0] && s.head != 0
  {
    hide PusherOk, PopperOk, SlabsOk;
  }

  lemma RunOfTwo(s: State, a: Step, s1: State, b: Step, s2: State)
    requires Enabled(s, a) && s1 == After(s, a) && Enabled(s1, b) && s2 == After(s1, b)
    ensures CanRun(s, [a, b]) && End(s, [a, b]) == s2
  {
    hide Enabled, After;
    assert [a, b][1..] == [b] && [b][1..] == [];
    assert CanRun(s2, []) && End(s2, []) == s2;
    assert CanRun(s1, [b]) && End(s1, [b]) == s2;
  }

  lemma RunOfFour(s: State, a: Step, s1: State, b: Step, s2: State, c: Step, s3: State, d: Step, s4: State)
    requires Enabled(s, a) && s1 == After(s, a) && Enabled(s1, b) && s2 == After(s1, b)
    requires Enabled(s2, c) && s3 == After(s2, c) && Enabled(s3, d) && s4 == After(s3, d)
    ensures CanRun(s, [a, b, c, d]) && End(s, [a, b, c, d]) == s4
  {
    hide Enabled, After;
    RunOfTwo(s2, c, s3, d, s4);
    assert [a, b, c, d][1..] == [b, c, d] && [b, c, d][1..] == [c, d];
    assert CanRun(s1, [b, c, d]);
  }

  // ------------------------------------------------------------------
  // Pops that do not overlap
  // ------------------------------------------------------------------

  /** No two pops overlap. */
  ghost predicate PopsApart(s: State) {
    forall t: Tid, u: Tid :: PopOf(s, t).Reading() && PopOf(s, u).Reading() ==> t == u
  }

  ghost predicate AllApart(s: State, steps: seq<Step>)
    decreases |steps|
  {
    PopsApart(s) && (steps == [] || (Enabled(s, steps[0]) && AllApart(After(s, steps[0]), steps[1..])))
  }

  /** What a popper read is still so. */
  ghost predicate Reliable(s: State, t: Tid) {
    match PopOf(s, t)
    case NotPopping => true
    case Started => true
    case Loaded(head) => At(s, head, Pooled)
    case Read(head, next) => At(s, head, Pooled) && NextOf(s, head) == next
  }

  /** A pop that will succeed holds the top and its true successor. */
  lemma PopReadsTop(s: State, stack: seq<Ptr>, t: Tid)
    requires Inv(s, stack) && Reliable(s, t) && Enabled(s, PopCas(t, false)) && s.head == PopOf(s, t).head
    ensures stack != [] && stack[0] == PopOf(s, t).head && PopOf(s, t).next == Item(stack, 1)
  {
    PopTakesTop(s, stack, t);
  }

  /** Only another thread's pop could make what a popper read untrue. */
  lemma ReliableKept(s: State, stack: seq<Ptr>, e: Step, u: Tid)
    requires Inv(s, stack) && PopsApart(s) && Enabled(s, e) && Reliable(s, u)
    ensures Reliable(After(s, e), u)
  {
    hide PopperOk;
    match e {
      case PushCas(t, _) => assert PusherOk(s, t);
      case PushLink(t) => assert PusherOk(s, t);
      case PopLoad(t) => assert s.head != 0 ==> s.head in stack;
      case _ =>
    }
  }

  lemma {:induction false} ApartNeverStale(s: State, steps: seq<Step>, x: seq<Ptr>)
    requires Inv(s, x) && AllApart(s, steps) && forall u: Tid :: Reliable(s, u)
    ensures NeverStale(s, steps)
    decreases |steps|
  {
    hide Inv, Enabled, After, Seen, Lifo, Reliable;
    if steps != [] {
      var e := steps[0];
      assert !Stale(s, e) by { ReliableIsNotStale(s, e); }
      hide Stale;
      var y := StepRefines(s, x, e);
      forall u: Tid ensures Reliable(After(s, e), u) {
        ReliableKept(s, x, e, u);
      }
      ApartNeverStale(After(s, e), steps[1..], y);
    }
  }

  lemma ReliableIsNotStale(s: State, e: Step)
    requires forall u: Tid :: Reliable(s, u)
    ensures !Stale(s, e)
  {
    if e.PopCas? {
      assert Reliable(s, e.t);
    }
  }

  /** In particular, every interleaving in which pops do not overlap is one. */
  lemma ApartRunIsLifo(s: State, steps: seq<Step>)
    requires Initial(s) && CanRun(s, steps) && AllApart(s, steps)
    ensures StaysLifo(s, steps, [])
  {
    hide StaysLifo, NeverStale, CanRun, Inv, AllApart;
    InitialInv(s);
    assert forall u: Tid :: Reliable(s, u);
    ApartNeverStale(s, steps, []);
    RunIsLifo(s, steps);
  }

  // ------------------------------------------------------------------
  // How many threads may pop
  // ------------------------------------------------------------------

  /** A pop step is one of a thread below `n`. */
  predicate PopperBelow(e: Step, n: nat) {
    match e
    case BeginPop(t) => t < n
    case PopLoad(t) => t < n
    case PopNext(t) => t < n
    case PopCas(t, _) => t < n
    case _ => true
  }

  ghost predicate PoppersBelow(steps: seq<Step>, n: nat) {
    forall i :: 0 <= i < |steps| ==> PopperBelow(steps[i], n)
  }

  /** Every run of any number of pushers, in which only threads below `n` pop,
      looks to its callers like a LIFO stack. */
  ghost predicate SafeFor(n: nat) {
    forall s, steps: seq<Step> :: Initial(s) && CanRun(s, steps) && PoppersBelow(steps, n) ==> LooksLifo(s, steps, [])
  }

  // One popper

  ghost predicate OnlyZeroPops(s: State) {
    forall t: Tid :: t > 0 ==> PopOf(s, t).NotPopping?
  }

  lemma ZeroKeepsPopping(s: State, e: Step)
    requires OnlyZeroPops(s) && Enabled(s, e) && PopperBelow(e, 1)
    ensures OnlyZeroPops(After(s, e))
  {
    hide At;
    forall t: Tid | t > 0
      ensures PopOf(After(s, e), t).NotPopping?
    {
      assert PopOf(s, t).NotPopping?;
    }
  }

  lemma {:induction false} OnePopperIsApart(s: State, steps: seq<Step>)
    requires OnlyZeroPops(s) && CanRun(s, steps) && PoppersBelow(steps, 1)
    ensures AllApart(s, steps)
    decreases |steps|
  {
    hide Enabled, After, PopperBelow;
    assert PopsApart(s);
    hide OnlyZeroPops, PopsApart;
    if steps != [] {
      var e, rest := steps[0], steps[1..];
      ZeroKeepsPopping(s, e);
      assert forall i :: 0 <= i < |rest| ==> rest[i] == steps[i + 1];
      OnePopperIsApart(After(s, e), rest);
    }
  }

  // Two poppers

  /** A run of two poppers that does not look LIFO. */
  ghost predicate Betrays(s: State, steps: seq<Step>, x: seq<Ptr>) {
    && CanRun(s, steps) && !LooksLifo(s, steps, x)
    && PoppersBelow(steps, 2)
  }

  /** A step before a run that betrays the stack. */
  lemma Before(s: State, e: Step, s1: State, x: seq<Ptr>, y: seq<Ptr>, rest: seq<Step>)
    requires Enabled(s, e) && After(s, e) == s1 && Lifo(x, Seen(s, e), y) && PopperBelow(e, 2) && Betrays(s1, rest, y)
    ensures Betrays(s, [e] + rest, x)
  {
    hide Enabled, After, Lifo, Seen, PopperBelow;
    var steps := [e] + rest;
    assert steps[1..] == rest;
    forall z | Lifo(x, Seen(s, e), z)
      ensures z == y
    {
      LifoDetermines(x, Seen(s, e), y, z);
    }
    forall i | 0 <= i < |steps|
      ensures PopperBelow(steps[i], 2)
    {
      assert i > 0 ==> steps[i] == rest[i - 1];
    }
  }

  /** The stack 3, 2; thread 0 has read head 3 and successor 2, thread 1 idles. */
  const STALLED := State(3, map[3 := 2, 2 := 0], map[1 := NotPushing], map[0 := Read(3, 2)],
      map[2 := Pooled, 3 := Pooled])

  const HALF := State(2, map[3 := 2, 2 := 0], map[1 := NotPushing], map[0 := Read(3, 2), 1 := NotPopping],
      map[2 := Pooled, 3 := Owned])

  const DRAINED := State(0, map[3 := 2, 2 := 0], map[1 := NotPushing], map[0 := Read(3, 2), 1 := NotPopping],
      map[2 := Owned, 3 := Owned])

  /** 3 is back, alone on the stack. */
  const BACK := State(3, map[3 := 0, 2 := 0], map[1 := NotPushing], map[0 := Read(3, 2), 1 := NotPopping],
      map[2 := Owned, 3 := Pooled])

  /** Thread 0 has popped 3 and installed 2, which is owned by thread 1's caller. */
  const FOOLED := State(2, map[3 := 0, 2 := 0], map[1 := NotPushing], map[0 := NotPopping, 1 := NotPopping],
      map[2 := Owned, 3 := Owned])

  const AGAIN: seq<Step> := [BeginPop(0)] + ([PopLoad(0)] + ([PopNext(0)] + ([PopCas(0, false)] + [])))

  /** The last pop returns a slab that was not in the pool. */
  lemma ReturnsTwice()
    ensures Betrays(FOOLED, AGAIN, [])
  {
    hide Betrays;
    var s0 := FOOLED.(pop := map[0 := Started, 1 := NotPopping]);
    var s1 := FOOLED.(pop := map[0 := Loaded(2), 1 := NotPopping]);
    var s2 := FOOLED.(pop := map[0 := Read(2, 0), 1 := NotPopping]);
    PopsFromNothing(s2);
    assert After(s1, PopNext(0)) == s2;
    Before(s1, PopNext(0), s2, [], [], [PopCas(0, false)] + []);
    assert After(s0, PopLoad(0)) == s1;
    Before(s0, PopLoad(0), s1, [], [], [PopNext(0)] + ([PopCas(0, false)] + []));
    assert After(FOOLED, BeginPop(0)) == s0;
    Before(FOOLED, BeginPop(0), s0, [], [], [PopLoad(0)] + ([PopNext(0)] + ([PopCas(0, false)] + [])));
  }

  lemma PopsFromNothing(s: State)
    requires PopOf(s, 0).Read? && s.head == PopOf(s, 0).head
    ensures Betrays(s, [PopCas(0, false)] + [], [])
  {
    hide At;
    var steps := [PopCas(0, false)] + [];
    assert steps[1..] == [] && steps[0] == PopCas(0, false);
    assert CanRun(After(s, steps[0]), []);
    assert Seen(s, steps[0]) == Pops(s.head);
    forall y
      ensures !Lifo([], Seen(s, steps[0]), y)
    {
    }
  }

  lemma ThenFooled(rest: seq<Step>)
    requires Betrays(FOOLED, rest, [])
    ensures Betrays(BACK, [PopCas(0, false)] + rest, [3])
  {
    hide Betrays;
    assert After(BACK, PopCas(0, false)) == FOOLED;
    assert [3][1..] == [];
    Before(BACK, PopCas(0, false), FOOLED, [3], [], rest);
  }

  /** Thread 1 pushes `slab`. */
  lemma Pushed(s: State, slab: Ptr, s1: State, x: seq<Ptr>, rest: seq<Step>) returns (steps: seq<Step>)
    requires At(s, slab, Owned) && slab != 0 && PushOf(s, 1).NotPushing? && slab !in x
    requires s1 == s.(head := slab, next := s.next[slab := s.head], push := s.push[1 := NotPushing], place :=
             s.place[slab := Pooled])
    requires Betrays(s1, rest, [slab] + x)
    ensures Betrays(s, steps, x)
  {
    hide Betrays;
    var a := s.(push := s.push[1 := ToLoad(slab)], place := s.place[slab := Pushing(1)]);
    var b := a.(push := s.push[1 := ToLink(slab, s.head)]);
    var c := a.(push := s.push[1 := ToCas(slab, s.head)], next := s.next[slab := s.head]);
    assert a.push[1 := ToLink(slab, s.head)] == b.push && b.push[1 := ToCas(slab, s.head)] == c.push;
    assert c.push[1 := NotPushing] == s1.push && c.place[slab := Pooled] == s1.place;
    assert After(c, PushCas(1, false)) == s1;
    Before(c, PushCas(1, false), s1, x, [slab] + x, rest);
    steps := [PushCas(1, false)] + rest;
    assert After(b, PushLink(1)) == c;
    Before(b, PushLink(1), c, x, x, steps);
    steps := [PushLink(1)] + steps;
    assert After(a, PushLoad(1)) == b;
    Before(a, PushLoad(1), b, x, x, steps);
    steps := [PushLoad(1)] + steps;
    Before(s, Begin(1, slab), a, x, x, steps);
    steps := [Begin(1, slab)] + steps;
  }

  /** Thread `t` pops the top. */
  lemma Popped(s: State, t: Tid, s1: State, x: seq<Ptr>, rest: seq<Step>) returns (steps: seq<Step>)
    requires t < 2 && PopOf(s, t).NotPopping? && x != [] && s.head == x[0] && s.head != 0
    requires s1 == s.(head := NextOf(s, s.head), pop := s.pop[t := NotPopping], place := s.place[s.head := Owned])
    requires Betrays(s1, rest, x[1..])
    ensures Betrays(s, steps, x)
  {
    hide Betrays;
    var z := s.(pop := s.pop[t := Started]);
    var a := s.(pop := s.pop[t := Loaded(s.head)]);
    var b := s.(pop := s.pop[t := Read(s.head, NextOf(s, s.head))]);
    assert z.pop[t := Loaded(s.head)] == a.pop && a.pop[t := Read(s.head, NextOf(s, s.head))] == b.pop;
    assert b.pop[t := NotPopping] == s1.pop;
    assert After(b, PopCas(t, false)) == s1;
    Before(b, PopCas(t, false), s1, x, x[1..], rest);
    steps := [PopCas(t, false)] + rest;
    assert After(a, PopNext(t)) == b;
    Before(a, PopNext(t), b, x, x, steps);
    steps := [PopNext(t)] + steps;
    assert After(z, PopLoad(t)) == a;
    Before(z, PopLoad(t), a, x, x, steps);
    steps := [PopLoad(t)] + steps;
    Before(s, BeginPop(t), z, x, x, steps);
    steps := [BeginPop(t)] + steps;
  }

  /** Slabs 2 and 3, both owned. */
  const START := State(0, map[], map[], map[], map[2 := Owned, 3 := Owned])

  const FULL := State(3, map[2 := 0, 3 := 2], map[1 := NotPushing], map[], map[2 := Pooled, 3 := Pooled])

  /** While thread 0 is stalled, thread 1 pops both slabs and pushes 3 back. */
  lemma FromStalled() returns (steps: seq<Step>)
    ensures Betrays(STALLED, steps, [3, 2])
  {
    hide Betrays, Enabled, After;
    ReturnsTwice();
    ThenFooled(AGAIN);
    steps := [PopCas(0, false)] + AGAIN;
    assert [3] + [] == [3];
    steps := Pushed(DRAINED, 3, BACK, [], steps);
    assert [2][1..] == [] && [3, 2][1..] == [2];
    steps := Popped(HALF, 1, DRAINED, [2], steps);
    steps := Popped(STALLED, 1, HALF, [3, 2], steps);
  }

  /** How the stack 3, 2 and the stalled pop come about. */
  lemma TwoPoppersBetray() returns (steps: seq<Step>)
    ensures Initial(START) && Betrays(START, steps, [])
  {
    hide Betrays;
    var one := State(2, map[2 := 0], map[1 := NotPushing], map[], map[2 := Pooled, 3 := Owned]);
    var loaded := FULL.(pop := map[0 := Loaded(3)]);
    steps := FromStalled();
    assert After(loaded, PopNext(0)) == STALLED;
    Before(loaded, PopNext(0), STALLED, [3, 2], [3, 2], steps);
    steps := [PopNext(0)] + steps;
    var started := FULL.(pop := map[0 := Started]);
    assert After(started, PopLoad(0)) == loaded;
    Before(started, PopLoad(0), loaded, [3, 2], [3, 2], steps);
    steps := [PopLoad(0)] + steps;
    assert After(FULL, BeginPop(0)) == started;
    Before(FULL, BeginPop(0), started, [3, 2], [3, 2], steps);
    steps := [BeginPop(0)] + steps;
    steps := FromStart(one, steps);
  }

  lemma FromStart(one: State, rest: seq<Step>) returns (steps: seq<Step>)
    requires one == State(2, map[2 := 0], map[1 := NotPushing], map[], map[2 := Pooled, 3 := Owned])
    requires Betrays(FULL, rest, [3, 2])
    ensures Betrays(START, steps, [])
  {
    hide Betrays, Enabled, After;
    assert [3] + [2] == [3, 2] && [2] + [] == [2];
    steps := Pushed(one, 3, FULL, [2], rest);
    steps := Pushed(START, 2, one, [], steps);
  }

  /** The pool is a LIFO stack in every run with `n` popping threads, and any
      number of pushing ones, if and only if `n` is at most 1. */
  lemma SafeForOnePopperOnly(n: nat)
    ensures SafeFor(n) <==> n <= 1
  {
    hide Betrays;
    if n <= 1 {
      forall s, steps: seq<Step> | Initial(s) && CanRun(s, steps) && PoppersBelow(steps, n)
        ensures LooksLifo(s, steps, [])
      {
        FewerPoppers(steps, n, 1);
        assert OnlyZeroPops(s);
        OnePopperIsApart(s, steps);
        ApartRunIsLifo(s, steps);
        StaysLooks(s, steps, []);
      }
    } else {
      var steps := TwoPoppersBetray();
      BetrayedRun(START, steps);
      FewerPoppers(steps, 2, n);
    }
  }

  lemma FewerPoppers(steps: seq<Step>, m: nat, n: nat)
    requires m <= n && PoppersBelow(steps, m)
    ensures PoppersBelow(steps, n)
  {
  }

  lemma BetrayedRun(s: State, steps: seq<Step>)
    requires Betrays(s, steps, [])
    ensures CanRun(s, steps) && !LooksLifo(s, steps, []) && PoppersBelow(steps, 2)
  {
  }
}
