/** Every step of the magazine allocator keeps its invariant. */
module MagazineProof {
  import opened Bits
  import opened Common
  import opened BlockLayout
  import opened MagazineMachine

  // ------------------------------------------------------------------
  // Blocks: moving one block, or a whole magazine, between places
  // ------------------------------------------------------------------

  ghost function Renamed(place: map<nat, Place>, from: Place, to: Place): map<nat, Place> {
    map b | b in place :: if place[b] == from then to else place[b]
  }

  lemma RemoveAt(x: seq<nat>, i: nat)
    requires i < |x| && Distinct(x)
    ensures Distinct(x[..i] + x[i + 1..])
    ensures forall b :: b in x[..i] + x[i + 1..] <==> b in x && b != x[i]
  {
    var y := x[..i] + x[i + 1..];
    forall b | b in x && b != x[i]
      ensures b in y
    {
      var j :| 0 <= j < |x| && x[j] == b;
      assert y[if j < i then j else j - 1] == b;
    }
  }

  lemma ConcatDistinct(x: seq<nat>, y: seq<nat>)
    requires Distinct(x) && Distinct(y)
    requires forall b :: b in x ==> b !in y
    ensures Distinct(x + y)
  {
    var z := x + y;
    forall i, j | 0 <= i < j < |z|
      ensures z[i] != z[j]
    {
      if i < |x| <= j {
        assert z[i] in x && z[j] in y;
      }
    }
  }

  /** What one place holds after a block moved. */
  lemma ShiftAt(box: Boxes, from: Place, i: nat, to: Place, l: Place)
    requires i < |At(box, from)| && from != to && Distinct(At(box, l))
    requires At(box, from)[i] in At(box, l) ==> l == from
    ensures Distinct(At(Shift(box, from, i, to), l))
    ensures forall b :: b in At(Shift(box, from, i, to), l) <==>
              (l == to && b == At(box, from)[i]) || (b in At(box, l) && b != At(box, from)[i])
  {
    if l == from {
      RemoveAt(At(box, from), i);
    }
  }

  lemma ShiftKeepsPlaced(box: Boxes, place: map<nat, Place>, from: Place, i: nat, to: Place)
    requires Placed(box, place) && from != to && i < |At(box, from)|
    ensures Placed(Shift(box, from, i, to), place[At(box, from)[i] := to])
  {
    hide Shift, At;
    var b0 := At(box, from)[i];
    var box' := Shift(box, from, i, to);
    assert b0 in At(box, from);
    forall l
      ensures Distinct(At(box', l))
      ensures forall b :: b in At(box', l) <==> (l == to && b == b0) || (b in At(box, l) && b != b0)
    {
      assert Distinct(At(box, l));
      assert b0 in At(box, l) ==> l == from;
      ShiftAt(box, from, i, to, l);
    }
  }

  lemma PourKeepsPlaced(box: Boxes, place: map<nat, Place>, from: Place, to: Place)
    requires Placed(box, place) && from != to && At(box, to) == []
    ensures Placed(Pour(box, from, to), Renamed(place, from, to))
  {
    var box', place' := Pour(box, from, to), Renamed(place, from, to);
    forall l
      ensures At(box', l) == if l == to then At(box, from) else if l == from then [] else At(box, l)
      ensures Distinct(At(box', l))
    {
      assert Distinct(At(box, l)) && Distinct(At(box, from));
    }
    forall b | b in place'
      ensures b in At(box', place'[b])
    {
      assert b in At(box, place[b]);
    }
  }

  lemma FreshAt(box: Boxes, l0: Place, blocks: seq<nat>, l: Place)
    requires Distinct(blocks) && Distinct(At(box, l))
    requires forall b :: b in At(box, l) ==> b !in blocks
    ensures Distinct(At(Fresh(box, l0, blocks), l))
    ensures forall b :: b in At(Fresh(box, l0, blocks), l) <==> b in At(box, l) || (l == l0 && b in blocks)
  {
    if l == l0 {
      ConcatDistinct(At(box, l), blocks);
    }
  }

  lemma FreshKeepsPlaced(box: Boxes, place: map<nat, Place>, l0: Place, blocks: seq<nat>)
    requires Placed(box, place) && Distinct(blocks)
    requires forall b :: b in blocks ==> b !in place
    ensures Placed(Fresh(box, l0, blocks), place + map b | b in blocks :: l0)
  {
    hide Fresh, At;
    var box' := Fresh(box, l0, blocks);
    forall l
      ensures Distinct(At(box', l))
      ensures forall b :: b in At(box', l) <==> b in At(box, l) || (l == l0 && b in blocks)
    {
      assert Distinct(At(box, l));
      FreshAt(box, l0, blocks, l);
    }
  }

  lemma RenamedKeepsClassed(place: map<nat, Place>, carved: map<nat, nat>, cls: map<Ptr, nat>, from: Place, to: Place)
    requires Classed(place, carved, cls)
    requires forall c :: ClassFits(from, c, cls) ==> ClassFits(to, c, cls)
    ensures Classed(Renamed(place, from, to), carved, cls)
  {
    hide ClassFits;
  }

  // ------------------------------------------------------------------
  // Stacks
  // ------------------------------------------------------------------

  lemma PushChain(next: map<Ptr, Ptr>, head: Ptr, stack: seq<Ptr>, n: Ptr)
    requires Chain(next, head, stack) && n != NULL && Link(next, n) == head
    ensures Chain(next, n, [n] + stack)
  {
    var stack' := [n] + stack;
    forall i | 0 <= i < |stack'|
      ensures stack'[i] != NULL && Link(next, stack'[i]) == Below(stack', i)
    {
      if i > 0 {
        assert stack'[i] == stack[i - 1];
      }
    }
  }

  lemma PushStack(next: map<Ptr, Ptr>, head: Ptr, stack: seq<Ptr>, g: Aux, g': Aux, stage: Stage, c: nat, n: Ptr)
    requires StackOk(next, head, stack, g, stage, c)
    requires n != NULL && n in g.stage && g.stage[n] != stage && n in g.cls && g.cls[n] == c
    requires Link(next, n) == head
    requires g'.stage == g.stage[n := stage] && g'.cls == g.cls
    ensures StackOk(next, n, [n] + stack, g', stage, c)
  {
    hide Chain;
    PushChain(next, head, stack, n);
    ConcatDistinct([n], stack);
  }

  lemma PopStack(next: map<Ptr, Ptr>, head: Ptr, stack: seq<Ptr>, g: Aux, g': Aux, stage: Stage, c: nat, later: Stage)
    requires StackOk(next, head, stack, g, stage, c) && stack != []
    requires g'.stage == g.stage[head := later] && g'.cls == g.cls
    ensures StackOk(next, Link(next, head), stack[1..], g', stage, c)
  {
    var stack' := stack[1..];
    forall i | 0 <= i < |stack'|
      ensures stack'[i] == stack[i + 1] && stack'[i] in stack && stack'[i] != stack[0]
    {
    }
    assert head == stack[0];
  }

  /** A stack is untouched by changes to nodes that are not on it. */
  lemma StackFrame(next: map<Ptr, Ptr>, next': map<Ptr, Ptr>, head: Ptr, stack: seq<Ptr>, g: Aux, g': Aux,
      stage: Stage, c: nat)
    requires StackOk(next, head, stack, g, stage, c)
    requires forall n :: n in stack ==>
               && Link(next', n) == Link(next, n)
               && n in g'.stage && g'.stage[n] == g.stage[n]
               && n in g'.cls && g'.cls[n] == g.cls[n]
    ensures StackOk(next', head, stack, g', stage, c)
  {
  }

  /** No stack changes when only nodes off the stacks do. */
  lemma StacksFrame(s: State, g: Aux, s': State, g': Aux)
    requires StacksOk(s, g)
    requires s'.fullHead == s.fullHead && s'.emptyHead == s.emptyHead && g'.full == g.full && g'.empty == g.empty
    requires forall n :: n in g.stage && n in g.cls && (g.stage[n].OnFull? || g.stage[n].OnEmpty?) ==>
               && Next(s', n) == Next(s, n)
               && n in g'.stage && g'.stage[n] == g.stage[n]
               && n in g'.cls && g'.cls[n] == g.cls[n]
    ensures StacksOk(s', g')
  {
    forall c
      ensures StackOk(s'.next, FullHead(s', c), FullOf(g', c), g', OnFull, c)
      ensures StackOk(s'.next, EmptyHead(s', c), EmptyOf(g', c), g', OnEmpty, c)
    {
      StackFrame(s.next, s'.next, FullHead(s, c), FullOf(g, c), g, g', OnFull, c);
      StackFrame(s.next, s'.next, EmptyHead(s, c), EmptyOf(g, c), g, g', OnEmpty, c);
    }
  }

  // ------------------------------------------------------------------
  // What a step of thread `t` leaves alone
  // ------------------------------------------------------------------

  function Rank(stage: Stage): nat {
    match stage
    case New(_) => 0
    case OnFull => 1
    case Popped(_) => 2
    case OnEmpty => 3
  }

  ghost predicate Owns(g: Aux, t: Tid, n: Ptr) {
    n in g.stage && (g.stage[n] == New(t) || g.stage[n] == Popped(t))
  }

  /** A step of `t` changes no other thread's variables and magazines, and no
      node but those it owns or takes from the full stack; nodes only advance. */
  ghost predicate Framed(s: State, g: Aux, s': State, g': Aux, t: Tid) {
    && (forall u :: u != t ==> PcOf(s', u) == PcOf(s, u))
    && (forall u, c :: u != t ==> AllocMag(s', u, c) == AllocMag(s, u, c))
    && (forall u, c :: u != t ==> FreeMag(s', u, c) == FreeMag(s, u, c))
    && (forall u, c :: u != t ==> At(s'.box, InHand(u, c)) == At(s.box, InHand(u, c)))
    && (forall n :: n in s.nodes ==> NodeFramed(s, g, s', g', t, n))
  }

  ghost predicate NodeFramed(s: State, g: Aux, s': State, g': Aux, t: Tid, n: Ptr) {
    && n in g.stage && n in g'.stage && n in g.cls && n in g'.cls && g'.cls[n] == g.cls[n]
    && (g'.stage[n] == g.stage[n] || Rank(g.stage[n]) < Rank(g'.stage[n]))
    && (g'.stage[n] == g.stage[n] || Owns(g, t, n) || g.stage[n].OnFull?)
    && (Owns(g, t, n) || (NodeMag(s', n) == NodeMag(s, n) && Next(s', n) == Next(s, n)))
  }

  lemma OthersKeepPointOk(s: State, g: Aux, s': State, g': Aux, t: Tid, u: Tid)
    requires NodesOk(s, g) && PointOk(s, g, u) && u != t
    requires Framed(s, g, s', g', t)
    ensures PointOk(s', g', u)
  {
    hide NodeOk;
    var pc := PcOf(s, u);
    assert OwnerOk(s, g, u);
    if pc.HoldsNew() || pc.HoldsPopped() {
      assert NodeFramed(s, g, s', g', t, pc.node);
    }
    if pc.PopNext? || pc.PopCas? {
      assert pc.cur in s.nodes;
      assert NodeFramed(s, g, s', g', t, pc.cur);
    }
  }

  lemma OthersKeepThreadOk(s: State, g: Aux, s': State, g': Aux, t: Tid, u: Tid)
    requires NodesOk(s, g) && ThreadOk(s, g, u) && u != t
    requires Framed(s, g, s', g', t)
    ensures ThreadOk(s', g', u)
  {
    hide NodesOk, PointOk, NodeFramed;
    OthersKeepPointOk(s, g, s', g', t, u);
  }

  lemma OthersKeepOwnerOk(s: State, g: Aux, s': State, g': Aux, t: Tid, u: Tid)
    requires NodesOk(s, g) && u != t
    requires Framed(s, g, s', g', t)
    ensures OwnerOk(s', g', u)
  {
    var pc := PcOf(s, u);
    assert OwnerOk(s, g, u);
    if pc.HoldsNew() || pc.HoldsPopped() {
      assert NodeFramed(s, g, s', g', t, pc.node);
    }
  }

  lemma OthersKeepNodeOk(s: State, g: Aux, s': State, g': Aux, t: Tid, n: Ptr)
    requires NodesOk(s, g) && n in s.nodes
    requires Framed(s, g, s', g', t) && !Owns(g, t, n) && n in g'.stage && g'.stage[n] == g.stage[n] && n in g'.cls
    requires n in FullOf(g, g.cls[n]) ==> n in FullOf(g', g.cls[n])
    requires n in EmptyOf(g, g.cls[n]) ==> n in EmptyOf(g', g.cls[n])
    ensures NodeOk(s', g', n)
  {
    assert NodeOk(s, g, n);
    assert NodeFramed(s, g, s', g', t, n);
  }

  // ------------------------------------------------------------------
  // Steps that only move the program counter
  // ------------------------------------------------------------------

  /** The thread owns the same node before and after. */
  predicate SameOwned(pc: Pc, pc': Pc) {
    && pc.HoldsNew() == pc'.HoldsNew() && pc.HoldsPopped() == pc'.HoldsPopped()
    && (pc.HoldsNew() || pc.HoldsPopped() ==> pc'.node == pc.node && pc'.c == pc.c)
  }

  lemma GotoKeepsNodes(s: State, g: Aux, t: Tid, pc': Pc)
    requires NodesOk(s, g) && SameOwned(PcOf(s, t), pc')
    ensures NodesOk(Goto(s, t, pc'), g)
  {
    var s' := Goto(s, t, pc');
    forall n | n in s'.nodes
      ensures NodeOk(s', g, n)
    {
      assert NodeOk(s, g, n);
    }
    forall u
      ensures OwnerOk(s', g, u)
    {
      assert OwnerOk(s, g, u);
    }
  }

  lemma GotoKeepsThreads(s: State, g: Aux, t: Tid, pc': Pc)
    requires NodesOk(s, g) && ThreadsOk(s, g) && ThreadOk(Goto(s, t, pc'), g, t)
    ensures ThreadsOk(Goto(s, t, pc'), g)
  {
    var s' := Goto(s, t, pc');
    assert Framed(s, g, s', g, t);
    forall u
      ensures ThreadOk(s', g, u)
    {
      if u != t {
        OthersKeepThreadOk(s, g, s', g, t, u);
      }
    }
  }

  lemma SizesFrame(s: State, s': State)
    requires SizesOk(s) && s'.box == s.box && s'.nodes == s.nodes && s'.bulkPages == s.bulkPages
    ensures SizesOk(s')
  {
    forall n | n !in s'.nodes
      ensures NodeMag(s', n) == []
    {
      assert NodeMag(s, n) == [];
    }
    forall t, c
      ensures |AllocMag(s', t, c)| <= MAGAZINE_CAPACITY && |FreeMag(s', t, c)| <= MAGAZINE_CAPACITY
    {
      assert AllocMag(s', t, c) == AllocMag(s, t, c) && FreeMag(s', t, c) == FreeMag(s, t, c);
    }
  }

  lemma GotoKeepsInv(s: State, g: Aux, t: Tid, pc': Pc)
    requires Inv(s, g) && SameOwned(PcOf(s, t), pc') && ThreadOk(Goto(s, t, pc'), g, t)
    ensures Inv(Goto(s, t, pc'), g)
  {
    GotoKeepsNodes(s, g, t, pc');
    GotoKeepsThreads(s, g, t, pc');
    assert StacksOk(Goto(s, t, pc'), g) by { StacksFrame(s, g, Goto(s, t, pc'), g); }
    SizesFrame(s, Goto(s, t, pc'));
    assert MemoryOk(Goto(s, t, pc')) by { assert MemoryOk(s); }
  }

  // ------------------------------------------------------------------
  // Frames of the invariant's parts
  // ------------------------------------------------------------------

  ghost predicate SameNodeAux(g: Aux, g': Aux) {
    g'.stage == g.stage && g'.cls == g.cls && g'.full == g.full && g'.empty == g.empty
  }

  lemma NodesFrame(s: State, g: Aux, s': State, g': Aux, t: Tid)
    requires NodesOk(s, g) && Framed(s, g, s', g', t)
    requires s'.nodes == s.nodes && SameNodeAux(g, g') && SameOwned(PcOf(s, t), PcOf(s', t))
    ensures NodesOk(s', g')
  {
    hide NodeOk, OwnerOk, Framed, SameOwned;
    forall n | n in s'.nodes
      ensures NodeOk(s', g', n)
    {
      NodeFrame(s, g, s', g', t, n);
    }
    forall u
      ensures OwnerOk(s', g', u)
    {
      assert OwnerOk(s, g, u);
      OwnerFrame(s, g, s', g', t, u);
    }
  }

  lemma NodeFrame(s: State, g: Aux, s': State, g': Aux, t: Tid, n: Ptr)
    requires NodesOk(s, g) && n in s.nodes && Framed(s, g, s', g', t)
    requires SameNodeAux(g, g') && SameOwned(PcOf(s, t), PcOf(s', t))
    ensures n in g'.stage && n in g'.cls && NodeOk(s', g', n)
  {
    hide OwnerOk;
    assert NodeOk(s, g, n);
    assert NodeFramed(s, g, s', g', t, n);
  }

  lemma OwnerFrame(s: State, g: Aux, s': State, g': Aux, t: Tid, u: Tid)
    requires OwnerOk(s, g, u) && Framed(s, g, s', g', t) && SameNodeAux(g, g') && SameOwned(PcOf(s, t), PcOf(s', t))
    ensures OwnerOk(s', g', u)
  {
    hide NodeFramed;
  }

  lemma ThreadsFrame(s: State, g: Aux, s': State, g': Aux, t: Tid)
    requires NodesOk(s, g) && ThreadsOk(s, g) && Framed(s, g, s', g', t) && ThreadOk(s', g', t)
    ensures ThreadsOk(s', g')
  {
    hide ThreadOk;
    forall u
      ensures ThreadOk(s', g', u)
    {
      if u != t {
        OthersKeepThreadOk(s, g, s', g', t, u);
      }
    }
  }

  /** Enough for `SizesOk` when boxes changed but no page was carved. */
  lemma SizesStep(s: State, s': State)
    requires SizesOk(s) && s'.bulkPages == s.bulkPages
    requires forall n :: n !in s'.nodes ==> NodeMag(s', n) == []
    requires forall t, c :: |AllocMag(s', t, c)| <= MAGAZINE_CAPACITY
    requires forall t, c :: |FreeMag(s', t, c)| <= MAGAZINE_CAPACITY
    requires forall c :: At(s'.box, HadNoRoom(c)) == At(s.box, HadNoRoom(c))
    ensures SizesOk(s')
  {
  }

  /** A step that touches only its thread's variables, magazines and nodes. */
  lemma LocalStep(s: State, g: Aux, s': State, g': Aux, t: Tid)
    requires Inv(s, g) && Framed(s, g, s', g', t) && SameNodeAux(g, g') && SameOwned(PcOf(s, t), PcOf(s', t))
    requires s' == s.(pc := s'.pc, box := s'.box, next := s'.next)
    requires BlocksOk(s', g') && ThreadOk(s', g', t) && SizesOk(s')
    ensures Inv(s', g')
  {
    hide BlocksIn, NodesOk, ThreadsOk, SizesOk, Framed, ThreadOk;
    NodesFrame(s, g, s', g', t);
    ThreadsFrame(s, g, s', g', t);
    StacksUnowned(s, g, s', g', t);
  }

  lemma StacksUnowned(s: State, g: Aux, s': State, g': Aux, t: Tid)
    requires StacksOk(s, g) && NodesOk(s, g) && SameNodeAux(g, g') && Framed(s, g, s', g', t)
    requires s'.fullHead == s.fullHead && s'.emptyHead == s.emptyHead
    ensures StacksOk(s', g')
  {
    forall n | n in g.stage && n in g.cls && (g.stage[n].OnFull? || g.stage[n].OnEmpty?)
      ensures Next(s', n) == Next(s, n)
    {
      assert NodeFramed(s, g, s', g', t, n);
    }
    StacksFrame(s, g, s', g');
  }

  lemma ClassedMove(place: map<nat, Place>, carved: map<nat, nat>, cls: map<Ptr, nat>, b: nat, to: Place)
    requires Classed(place, carved, cls) && b in carved && ClassFits(to, carved[b], cls)
    ensures Classed(place[b := to], carved, cls)
  {
    hide ClassFits;
  }

  lemma ShiftKeepsBlocks(s: State, g: Aux, from: Place, i: nat, to: Place)
    requires BlocksOk(s, g) && from != to && i < |At(s.box, from)|
    requires At(s.box, from)[i] in s.carved && ClassFits(to, s.carved[At(s.box, from)[i]], g.cls)
    ensures BlocksOk(s.(box := Shift(s.box, from, i, to)), g.(place := g.place[At(s.box, from)[i] := to]))
  {
    hide Shift, Placed, Classed, ClassFits;
    ShiftKeepsPlaced(s.box, g.place, from, i, to);
    ClassedMove(g.place, s.carved, g.cls, At(s.box, from)[i], to);
  }

  lemma InCarved(s: State, g: Aux, l: Place, i: nat)
    requires BlocksOk(s, g) && i < |At(s.box, l)|
    ensures At(s.box, l)[i] in s.carved && ClassFits(l, s.carved[At(s.box, l)[i]], g.cls)
  {
    hide ClassFits;
    assert At(s.box, l)[i] in At(s.box, l);
  }

  lemma PourKeepsBlocks(s: State, g: Aux, from: Place, to: Place)
    requires BlocksOk(s, g) && from != to && At(s.box, to) == []
    requires forall c :: ClassFits(from, c, g.cls) ==> ClassFits(to, c, g.cls)
    ensures BlocksOk(s.(box := Pour(s.box, from, to)), g.(place := Renamed(g.place, from, to)))
  {
    hide Pour, Placed, Classed, ClassFits;
    PourKeepsPlaced(s.box, g.place, from, to);
    RenamedKeepsClassed(g.place, s.carved, g.cls, from, to);
  }

  // ------------------------------------------------------------------
  // Steps that move blocks between magazines
  // ------------------------------------------------------------------

  ghost function AuxTake(s: State, g: Aux, t: Tid, c: nat): Aux {
    var m := AllocMag(s, t, c);
    if m == [] then g else g.(place := g.place[m[|m| - 1] := Live])
  }

  /** Places a step of thread `t` on class `c` may change. */
  ghost predicate Mine(g: Aux, t: Tid, c: nat, l: Place) {
    || l.Live? || l.Leaked?
    || l == InAlloc(t, c) || l == InFree(t, c) || l == InHand(t, c)
    || (l.InNode? && Owns(g, t, l.n))
  }

  ghost predicate BoxesFramed(box: Boxes, box': Boxes, g: Aux, t: Tid, c: nat) {
    forall l :: At(box', l) == At(box, l) || Mine(g, t, c, l)
  }

  ghost predicate NextFramed(s: State, g: Aux, s': State, t: Tid) {
    forall n :: Next(s', n) == Next(s, n) || Owns(g, t, n)
  }

  /** A step of thread `t` within its own boxes, nodes and program counter. */
  ghost predicate OwnStep(s: State, g: Aux, s': State, t: Tid, c: nat) {
    && s' == s.(pc := s'.pc, box := s'.box, next := s'.next)
    && (forall u: Tid :: u != t ==> PcOf(s', u) == PcOf(s, u))
    && BoxesFramed(s.box, s'.box, g, t, c)
    && NextFramed(s, g, s', t)
  }

  lemma OwnStepFramed(s: State, g: Aux, s': State, g': Aux, t: Tid, c: nat)
    requires NodesOk(s, g) && OwnStep(s, g, s', t, c) && SameNodeAux(g, g')
    ensures Framed(s, g, s', g', t)
  {
    forall n | n in s.nodes
      ensures NodeFramed(s, g, s', g', t, n)
    {
      assert At(s'.box, InNode(n)) == At(s.box, InNode(n)) || Mine(g, t, c, InNode(n));
    }
    forall u: Tid, d: nat | u != t
      ensures AllocMag(s', u, d) == AllocMag(s, u, d)
      ensures FreeMag(s', u, d) == FreeMag(s, u, d)
      ensures At(s'.box, InHand(u, d)) == At(s.box, InHand(u, d))
    {
    }
  }

  lemma OwnStepSizes(s: State, g: Aux, s': State, t: Tid, c: nat)
    requires NodesOk(s, g) && SizesOk(s) && OwnStep(s, g, s', t, c)
    requires |AllocMag(s', t, c)| <= MAGAZINE_CAPACITY && |FreeMag(s', t, c)| <= MAGAZINE_CAPACITY
    ensures SizesOk(s')
  {
    hide NoRoomOk, NodeOk, OwnerOk;
    forall u: Tid, d: nat
      ensures |AllocMag(s', u, d)| <= MAGAZINE_CAPACITY && |FreeMag(s', u, d)| <= MAGAZINE_CAPACITY
    {
      assert |AllocMag(s, u, d)| <= MAGAZINE_CAPACITY && |FreeMag(s, u, d)| <= MAGAZINE_CAPACITY;
    }
    forall n | n !in s'.nodes
      ensures NodeMag(s', n) == []
    {
      assert NodeMag(s, n) == [];
      assert At(s'.box, InNode(n)) == At(s.box, InNode(n)) || Mine(g, t, c, InNode(n));
    }
    forall d: nat
      ensures At(s'.box, HadNoRoom(d)) == At(s.box, HadNoRoom(d))
    {
    }
    SizesStep(s, s');
  }

  /** Such a step keeps the invariant once its own obligations are met. */
  lemma OwnStepKeepsInv(s: State, g: Aux, s': State, g': Aux, t: Tid, c: nat)
    requires Inv(s, g) && OwnStep(s, g, s', t, c) && SameNodeAux(g, g') && SameOwned(PcOf(s, t), PcOf(s', t))
    requires |AllocMag(s', t, c)| <= MAGAZINE_CAPACITY && |FreeMag(s', t, c)| <= MAGAZINE_CAPACITY
    requires BlocksOk(s', g') && ThreadOk(s', g', t)
    ensures Inv(s', g')
  {
    hide BlocksIn, StacksOk, NodesOk, ThreadsOk, SizesOk, MemoryOk, Framed, ThreadOk, BoxesFramed, NextFramed;
    OwnStepFramed(s, g, s', g', t, c);
    OwnStepSizes(s, g, s', t, c);
    LocalStep(s, g, s', g', t);
  }

  // Taking a block from the alloc magazine

  lemma TakeOwn(s: State, g: Aux, t: Tid, c: nat, otherwise: Pc)
    requires ThreadOk(s, g, t) && AllocMag(s, t, c) != []
    requires PcOf(s, t) == TryLocal(c) || PcOf(s, t) == TakeSwapped(c) || PcOf(s, t) == TakePopped(c)
    ensures OwnStep(s, g, TakeStep(s, t, c, otherwise), t, c)
    ensures ThreadOk(TakeStep(s, t, c, otherwise), AuxTake(s, g, t, c), t)
    ensures |AllocMag(TakeStep(s, t, c, otherwise), t, c)| == |AllocMag(s, t, c)| - 1
    ensures FreeMag(TakeStep(s, t, c, otherwise), t, c) == FreeMag(s, t, c)
  {
  }

  lemma TakeKeepsInv(s: State, g: Aux, t: Tid, c: nat, otherwise: Pc)
    requires Inv(s, g) && AllocMag(s, t, c) != []
    requires PcOf(s, t) == TryLocal(c) || PcOf(s, t) == TakeSwapped(c) || PcOf(s, t) == TakePopped(c)
    ensures Inv(TakeStep(s, t, c, otherwise), AuxTake(s, g, t, c))
  {
    hide BlocksIn, StacksOk, NodesOk, ThreadsOk, SizesOk, MemoryOk, OwnStep, ThreadOk, Shift;
    Bounds(s, g, t, c);
    var n := |AllocMag(s, t, c)|;
    TakeOwn(s, g, t, c, otherwise);
    InCarved(s, g, InAlloc(t, c), n - 1);
    ShiftKeepsBlocks(s, g, InAlloc(t, c), n - 1, Live);
    OwnStepKeepsInv(s, g, TakeStep(s, t, c, otherwise), AuxTake(s, g, t, c), t, c);
  }

  lemma Bounds(s: State, g: Aux, t: Tid, c: nat)
    requires ThreadsOk(s, g) && SizesOk(s)
    ensures ThreadOk(s, g, t)
    ensures |AllocMag(s, t, c)| <= MAGAZINE_CAPACITY && |FreeMag(s, t, c)| <= MAGAZINE_CAPACITY
  {
  }

  // The local swap of the alloc and free magazines

  lemma SwapOwn(s: State, g: Aux, g': Aux, t: Tid, c: nat)
    requires ThreadOk(s, g, t) && PcOf(s, t) == TryLocal(c)
    requires AllocMag(s, t, c) == [] && FreeMag(s, t, c) != []
    ensures OwnStep(s, g, GoStep(s, t, Proceed), t, c)
    ensures ThreadOk(GoStep(s, t, Proceed), g', t)
    ensures AllocMag(GoStep(s, t, Proceed), t, c) == FreeMag(s, t, c) && FreeMag(GoStep(s, t, Proceed), t, c) == []
    ensures GoStep(s, t, Proceed).box == Pour(s.box, InFree(t, c), InAlloc(t, c))
  {
  }

  lemma SwapKeepsInv(s: State, g: Aux, t: Tid, c: nat)
    requires Inv(s, g) && PcOf(s, t) == TryLocal(c)
    requires AllocMag(s, t, c) == [] && FreeMag(s, t, c) != []
    ensures Inv(GoStep(s, t, Proceed), g.(place := Renamed(g.place, InFree(t, c), InAlloc(t, c))))
  {
    hide BlocksIn, StacksOk, NodesOk, ThreadsOk, SizesOk, MemoryOk, OwnStep, ThreadOk, Pour;
    Bounds(s, g, t, c);
    var g' := g.(place := Renamed(g.place, InFree(t, c), InAlloc(t, c)));
    SwapOwn(s, g, g', t, c);
    PourKeepsBlocks(s, g, InFree(t, c), InAlloc(t, c));
    OwnStepKeepsInv(s, g, GoStep(s, t, Proceed), g', t, c);
  }

  // The exchange of the empty alloc magazine for the popped node's

  lemma OwnedNode(s: State, g: Aux, t: Tid)
    requires NodesOk(s, g) && (PcOf(s, t).HoldsNew() || PcOf(s, t).HoldsPopped())
    ensures var node := PcOf(s, t).node;
            Owns(g, t, node) && node in s.nodes && node in g.cls && g.cls[node] == PcOf(s, t).c && node != NULL
  {
    assert OwnerOk(s, g, t);
    assert NodeOk(s, g, PcOf(s, t).node);
  }

  lemma ExchangeOwn(s: State, g: Aux, g': Aux, t: Tid, c: nat, node: Ptr)
    requires ThreadOk(s, g, t) && PcOf(s, t) == Exchange(c, node) && Owns(g, t, node)
    ensures OwnStep(s, g, GoStep(s, t, Proceed), t, c)
    ensures ThreadOk(GoStep(s, t, Proceed), g', t)
    ensures |AllocMag(GoStep(s, t, Proceed), t, c)| == MAGAZINE_CAPACITY
    ensures FreeMag(GoStep(s, t, Proceed), t, c) == FreeMag(s, t, c)
    ensures AllocMag(s, t, c) == []
  {
    hide GoStep;
    GoesEmpty(s, t, Proceed);
  }

  lemma ExchangeKeepsInv(s: State, g: Aux, t: Tid, c: nat, node: Ptr)
    requires Inv(s, g) && PcOf(s, t) == Exchange(c, node)
    ensures Inv(GoStep(s, t, Proceed), g.(place := Renamed(g.place, InNode(node), InAlloc(t, c))))
  {
    hide BlocksIn, StacksOk, NodesOk, ThreadsOk, SizesOk, MemoryOk, OwnStep, ThreadOk, Pour;
    Bounds(s, g, t, c);
    var g' := g.(place := Renamed(g.place, InNode(node), InAlloc(t, c)));
    OwnedNode(s, g, t);
    ExchangeOwn(s, g, g', t, c, node);
    PourKeepsBlocks(s, g, InNode(node), InAlloc(t, c));
    OwnStepKeepsInv(s, g, GoStep(s, t, Proceed), g', t, c);
  }

  // Moving the full free magazine into a fresh node

  lemma FillOwn(s: State, g: Aux, g': Aux, t: Tid, c: nat, node: Ptr)
    requires ThreadOk(s, g, t) && PcOf(s, t) == Fill(c, node) && Owns(g, t, node)
    ensures OwnStep(s, g, GoStep(s, t, Proceed), t, c)
    ensures ThreadOk(GoStep(s, t, Proceed), g', t)
    ensures FreeMag(GoStep(s, t, Proceed), t, c) == []
    ensures AllocMag(GoStep(s, t, Proceed), t, c) == AllocMag(s, t, c)
    ensures NodeMag(s, node) == []
  {
    hide GoStep;
    GoesFull(s, t, Proceed);
  }

  lemma FillKeepsInv(s: State, g: Aux, t: Tid, c: nat, node: Ptr)
    requires Inv(s, g) && PcOf(s, t) == Fill(c, node)
    ensures Inv(GoStep(s, t, Proceed), g.(place := Renamed(g.place, InFree(t, c), InNode(node))))
  {
    hide BlocksIn, StacksOk, NodesOk, ThreadsOk, SizesOk, MemoryOk, OwnStep, ThreadOk, Pour;
    Bounds(s, g, t, c);
    var g' := g.(place := Renamed(g.place, InFree(t, c), InNode(node)));
    OwnedNode(s, g, t);
    FillOwn(s, g, g', t, c, node);
    PourKeepsBlocks(s, g, InFree(t, c), InNode(node));
    OwnStepKeepsInv(s, g, GoStep(s, t, Proceed), g', t, c);
  }

  // Freeing one block

  lemma CarvedClass(s: State, b: nat)
    requires MemoryOk(s) && b in s.carved
    ensures s.carved[b] < NUM_CLASSES
  {
  }

  lemma FreeBoxes(s: State, g: Aux, t: Tid, i: nat, c: nat)
    requires i < |LiveBlocks(s)|
    ensures OwnStep(s, g, InHandStep(s, t, i, c), t, c)
  {
  }

  lemma FreeOwn(s: State, g: Aux, g': Aux, t: Tid, i: nat, c: nat)
    requires ThreadOk(s, g, t) && PcOf(s, t).Idle? && i < |LiveBlocks(s)| && c < NUM_CLASSES
    ensures ThreadOk(InHandStep(s, t, i, c), g', t)
  {
    var s' := InHandStep(s, t, i, c);
    forall d: nat
      ensures |At(s'.box, InHand(t, d))| == if c == d then 1 else 0
    {
      assert |At(s.box, InHand(t, d))| == 0;
    }
  }

  lemma FreeKeepsInv(s: State, g: Aux, t: Tid, i: nat, c: nat)
    requires Inv(s, g) && PcOf(s, t).Idle? && i < |LiveBlocks(s)|
    requires LiveBlocks(s)[i] in s.carved && c == s.carved[LiveBlocks(s)[i]]
    ensures Inv(InHandStep(s, t, i, c), g.(place := g.place[LiveBlocks(s)[i] := InHand(t, c)]))
  {
    hide BlocksIn, StacksOk, NodesOk, ThreadsOk, SizesOk, MemoryOk, OwnStep, ThreadOk, Shift;
    Bounds(s, g, t, c);
    CarvedClass(s, LiveBlocks(s)[i]);
    var g' := g.(place := g.place[LiveBlocks(s)[i] := InHand(t, c)]);
    FreeBoxes(s, g, t, i, c);
    FreeOwn(s, g, g', t, i, c);
    FreeMags(s, t, i, c);
    ShiftKeepsBlocks(s, g, Live, i, InHand(t, c));
    OwnStepKeepsInv(s, g, InHandStep(s, t, i, c), g', t, c);
  }

  lemma FreeMags(s: State, t: Tid, i: nat, c: nat)
    requires i < |LiveBlocks(s)|
    ensures AllocMag(InHandStep(s, t, i, c), t, c) == AllocMag(s, t, c)
    ensures FreeMag(InHandStep(s, t, i, c), t, c) == FreeMag(s, t, c)
  {
  }

  // Pushing the block in hand to the free magazine, or dropping it

  ghost function AuxPut(s: State, g: Aux, t: Tid, c: nat): Aux {
    var h := At(s.box, InHand(t, c));
    if h == [] then g else g.(place := g.place[h[0] := PutTarget(s, t, c)])
  }

  ghost predicate CanPut(s: State, t: Tid, c: nat) {
    && PcOf(s, t).Freeing() && !PcOf(s, t).HoldsNew() && PcOf(s, t).c == c
    && |At(s.box, InHand(t, c))| == 1 && |FreeMag(s, t, c)| <= MAGAZINE_CAPACITY
  }

  lemma PutBoxes(s: State, g: Aux, t: Tid, c: nat, to: Place)
    requires At(s.box, InHand(t, c)) != [] && (to == InFree(t, c) || to == Leaked)
    ensures OwnStep(s, g, PutInto(s, t, c, to), t, c)
  {
  }

  lemma PutOwn(s: State, g: Aux, g': Aux, t: Tid, c: nat, to: Place)
    requires ThreadOk(s, g, t) && CanPut(s, t, c) && (to == InFree(t, c) || to == Leaked)
    ensures ThreadOk(PutInto(s, t, c, to), g', t)
  {
    var s' := PutInto(s, t, c, to);
    assert PcOf(s', t).Idle?;
    forall d: nat
      ensures |At(s'.box, InHand(t, d))| == 0
    {
      assert |At(s.box, InHand(t, d))| == if d == c then 1 else 0;
    }
  }

  lemma PutMags(s: State, t: Tid, c: nat)
    requires CanPut(s, t, c)
    ensures AllocMag(PutInto(s, t, c, PutTarget(s, t, c)), t, c) == AllocMag(s, t, c)
    ensures |FreeMag(PutInto(s, t, c, PutTarget(s, t, c)), t, c)| <= MAGAZINE_CAPACITY
  {
  }

  lemma CanPutNow(s: State, g: Aux, t: Tid, c: nat)
    requires ThreadsOk(s, g) && SizesOk(s) && PcOf(s, t).Freeing() && !PcOf(s, t).HoldsNew() && PcOf(s, t).c == c
    ensures CanPut(s, t, c)
  {
    assert ThreadOk(s, g, t);
  }

  lemma PutKeepsInv(s: State, g: Aux, t: Tid, c: nat)
    requires Inv(s, g) && PcOf(s, t).Freeing() && !PcOf(s, t).HoldsNew() && PcOf(s, t).c == c
    ensures Inv(PutStep(s, t, c), AuxPut(s, g, t, c))
  {
    hide BlocksIn, StacksOk, NodesOk, ThreadsOk, SizesOk, MemoryOk, OwnStep, ThreadOk, Shift;
    Bounds(s, g, t, c);
    CanPutNow(s, g, t, c);
    PutBoxes(s, g, t, c, PutTarget(s, t, c));
    PutOwn(s, g, AuxPut(s, g, t, c), t, c, PutTarget(s, t, c));
    PutMags(s, t, c);
    InCarved(s, g, InHand(t, c), 0);
    ShiftKeepsBlocks(s, g, InHand(t, c), 0, PutTarget(s, t, c));
    OwnStepKeepsInv(s, g, PutStep(s, t, c), AuxPut(s, g, t, c), t, c);
  }

  // ------------------------------------------------------------------
  // Steps on the two stacks
  // ------------------------------------------------------------------

  /** Writing the link of an owned node. */
  lemma LinkKeepsInv(s: State, g: Aux, t: Tid)
    requires Inv(s, g) && (PcOf(s, t).EmptyLink? || PcOf(s, t).FullLink?)
    ensures Inv(GoStep(s, t, Proceed), g)
  {
    hide BlocksIn, StacksOk, NodesOk, ThreadsOk, SizesOk, MemoryOk, OwnStep, ThreadOk, GoStep;
    var c := PcOf(s, t).c;
    Bounds(s, g, t, c);
    OwnedNode(s, g, t);
    LinkStep(s, t);
    LinkOwn(s, g, t, c);
    OwnStepKeepsInv(s, g, Linking(s, t), g, t, c);
  }

  /** The state after the link of the owned node is written. */
  ghost function Linking(s: State, t: Tid): State
    requires PcOf(s, t).EmptyLink? || PcOf(s, t).FullLink?
  {
    var pc := PcOf(s, t);
    Goto(s, t, if pc.EmptyLink? then EmptyCas(pc.c, pc.node, pc.cur) else FullCas(pc.c, pc.node, pc.cur))
      .(next := s.next[pc.node := pc.cur])
  }

  lemma LinkStep(s: State, t: Tid)
    requires PcOf(s, t).EmptyLink? || PcOf(s, t).FullLink?
    ensures GoEnabled(s, t, Proceed) && GoStep(s, t, Proceed) == Linking(s, t)
  {
    hide GoStep;
    if PcOf(s, t).EmptyLink? {
      GoesEmpty(s, t, Proceed);
    } else {
      GoesFull(s, t, Proceed);
    }
  }

  lemma LinkOwn(s: State, g: Aux, t: Tid, c: nat)
    requires ThreadOk(s, g, t) && (PcOf(s, t).EmptyLink? || PcOf(s, t).FullLink?) && PcOf(s, t).c == c
    requires Owns(g, t, PcOf(s, t).node)
    ensures OwnStep(s, g, Linking(s, t), t, c)
    ensures ThreadOk(Linking(s, t), g, t)
    ensures Linking(s, t).box == s.box
  {
    hide OwnStep, ThreadOk;
    LinkOwnStep(s, g, t, c);
    LinkThread(s, g, t);
  }

  lemma LinkOwnStep(s: State, g: Aux, t: Tid, c: nat)
    requires (PcOf(s, t).EmptyLink? || PcOf(s, t).FullLink?) && Owns(g, t, PcOf(s, t).node)
    ensures OwnStep(s, g, Linking(s, t), t, c)
  {
    hide Mine;
  }

  lemma LinkThread(s: State, g: Aux, t: Tid)
    requires ThreadOk(s, g, t) && (PcOf(s, t).EmptyLink? || PcOf(s, t).FullLink?)
    ensures ThreadOk(Linking(s, t), g, t)
  {
  }

  // The states after the four steps that move a node

  ghost function PoppedFull(s: State, t: Tid, c: nat, cur: Ptr, nxt: Ptr): State {
    Goto(s, t, Exchange(c, cur)).(fullHead := s.fullHead[c := nxt])
  }

  ghost function PushedFull(s: State, t: Tid, c: nat, node: Ptr): State {
    Goto(s, t, PutLocal(c)).(fullHead := s.fullHead[c := node])
  }

  ghost function PushedEmpty(s: State, t: Tid, c: nat, node: Ptr): State {
    Goto(s, t, TakePopped(c)).(emptyHead := s.emptyHead[c := node])
  }

  ghost function GotNode(s: State, t: Tid, c: nat, node: Ptr): State {
    Goto(s, t, Fill(c, node)).(nodes := s.nodes + {node})
  }

  lemma PopStep(s: State, t: Tid, c: nat, cur: Ptr, nxt: Ptr)
    requires PcOf(s, t) == PopCas(c, cur, nxt) && FullHead(s, c) == cur
    ensures GoStep(s, t, Proceed) == PoppedFull(s, t, c, cur, nxt)
  {
    hide GoStep;
    GoesPop(s, t, Proceed);
  }

  lemma PushFullStep(s: State, t: Tid, c: nat, node: Ptr, cur: Ptr)
    requires PcOf(s, t) == FullCas(c, node, cur) && FullHead(s, c) == cur
    ensures GoStep(s, t, Proceed) == PushedFull(s, t, c, node)
  {
    hide GoStep;
    GoesFull(s, t, Proceed);
  }

  lemma PushEmptyStep(s: State, t: Tid, c: nat, node: Ptr, cur: Ptr)
    requires PcOf(s, t) == EmptyCas(c, node, cur) && EmptyHead(s, c) == cur
    ensures GoStep(s, t, Proceed) == PushedEmpty(s, t, c, node)
  {
    hide GoStep;
    GoesEmpty(s, t, Proceed);
  }

  lemma GetNodeStep(s: State, t: Tid, c: nat, node: Ptr)
    requires PcOf(s, t) == NeedNode(c) && node != NULL && node !in s.nodes
    ensures GoStep(s, t, FreshNode(node)) == GotNode(s, t, c, node)
  {
    hide GoStep;
    GoesFree(s, t, FreshNode(node));
  }

  // A successful pop from the full stack

  ghost function AuxPop(g: Aux, t: Tid, c: nat, cur: Ptr): Aux {
    if FullOf(g, c) == [] then g
    else g.(stage := g.stage[cur := Popped(t)], full := g.full[c := FullOf(g, c)[1..]])
  }

  ghost predicate Popping(s: State, g: Aux, t: Tid, c: nat, cur: Ptr, nxt: Ptr) {
    Inv(s, g) && PcOf(s, t) == PopCas(c, cur, nxt) && FullHead(s, c) == cur
  }

  /** The heart of the ABA argument: a node that is the head now has been on the
      full stack ever since it was read as the head, so the link read from it
      then is its link now. */
  lemma PopReadsTrueSuccessor(s: State, g: Aux, t: Tid, c: nat, cur: Ptr, nxt: Ptr)
    requires StacksOk(s, g) && ThreadsOk(s, g) && PcOf(s, t) == PopCas(c, cur, nxt) && FullHead(s, c) == cur
    ensures |FullOf(g, c)| > 0 && FullOf(g, c)[0] == cur
    ensures cur in g.stage && g.stage[cur] == OnFull && cur in g.cls && g.cls[cur] == c
    ensures nxt == Next(s, cur)
    ensures nxt == Below(FullOf(g, c), 0)
  {
    assert ThreadOk(s, g, t);
    var stack := FullOf(g, c);
    assert StackOk(s.next, FullHead(s, c), stack, g, OnFull, c);
    assert cur == stack[0] && stack[0] in stack;
  }

  lemma PopKeepsStacks(s: State, g: Aux, t: Tid, c: nat, cur: Ptr, nxt: Ptr)
    requires StacksOk(s, g) && ThreadsOk(s, g) && PcOf(s, t) == PopCas(c, cur, nxt) && FullHead(s, c) == cur
    ensures StacksOk(PoppedFull(s, t, c, cur, nxt), AuxPop(g, t, c, cur))
  {
    hide ThreadsOk;
    var s', g' := PoppedFull(s, t, c, cur, nxt), AuxPop(g, t, c, cur);
    PopReadsTrueSuccessor(s, g, t, c, cur, nxt);
    forall d
      ensures StackOk(s'.next, FullHead(s', d), FullOf(g', d), g', OnFull, d)
      ensures StackOk(s'.next, EmptyHead(s', d), EmptyOf(g', d), g', OnEmpty, d)
    {
      if d == c {
        PopStack(s.next, cur, FullOf(g, c), g, g', OnFull, c, Popped(t));
      } else {
        StackFrame(s.next, s.next, FullHead(s, d), FullOf(g, d), g, g', OnFull, d);
      }
      StackFrame(s.next, s.next, EmptyHead(s, d), EmptyOf(g, d), g, g', OnEmpty, d);
    }
  }

  lemma PopFramed(s: State, g: Aux, t: Tid, c: nat, cur: Ptr, nxt: Ptr)
    requires NodesOk(s, g) && PcOf(s, t) == PopCas(c, cur, nxt) && FullHead(s, c) == cur && FullOf(g, c) != []
    requires cur in g.stage && g.stage[cur] == OnFull
    ensures Framed(s, g, PoppedFull(s, t, c, cur, nxt), AuxPop(g, t, c, cur), t)
  {
    hide NodeOk, OwnerOk;
    var s', g' := PoppedFull(s, t, c, cur, nxt), AuxPop(g, t, c, cur);
    forall n | n in s.nodes
      ensures NodeFramed(s, g, s', g', t, n)
    {
      assert NodeMag(s', n) == NodeMag(s, n) && Next(s', n) == Next(s, n);
    }
  }

  lemma PopKeepsNode(s: State, g: Aux, t: Tid, c: nat, cur: Ptr, nxt: Ptr, n: Ptr)
    requires NodesOk(s, g) && n in s.nodes && cur in s.nodes
    requires PcOf(s, t) == PopCas(c, cur, nxt) && FullHead(s, c) == cur
    requires FullOf(g, c) != [] && FullOf(g, c)[0] == cur && g.stage[cur] == OnFull && g.cls[cur] == c
    requires Framed(s, g, PoppedFull(s, t, c, cur, nxt), AuxPop(g, t, c, cur), t)
    ensures NodeOk(PoppedFull(s, t, c, cur, nxt), AuxPop(g, t, c, cur), n)
  {
    hide Framed;
    assert NodeOk(s, g, n);
    if n != cur {
      assert !Owns(g, t, n);
      InTail(FullOf(g, c), n);
      OthersKeepNodeOk(s, g, PoppedFull(s, t, c, cur, nxt), AuxPop(g, t, c, cur), t, n);
    }
  }

  lemma PopKeepsNodes(s: State, g: Aux, t: Tid, c: nat, cur: Ptr, nxt: Ptr)
    requires NodesOk(s, g) && cur in s.nodes
    requires PcOf(s, t) == PopCas(c, cur, nxt) && FullHead(s, c) == cur
    requires FullOf(g, c) != [] && FullOf(g, c)[0] == cur && g.stage[cur] == OnFull && g.cls[cur] == c
    requires Framed(s, g, PoppedFull(s, t, c, cur, nxt), AuxPop(g, t, c, cur), t)
    ensures NodesOk(PoppedFull(s, t, c, cur, nxt), AuxPop(g, t, c, cur))
  {
    hide Framed, NodeOk, FullOf;
    var s', g' := PoppedFull(s, t, c, cur, nxt), AuxPop(g, t, c, cur);
    forall n | n in s'.nodes
      ensures NodeOk(s', g', n)
    {
      PopKeepsNode(s, g, t, c, cur, nxt, n);
    }
    forall u
      ensures OwnerOk(s', g', u)
    {
      if u != t {
        OthersKeepOwnerOk(s, g, s', g', t, u);
      }
    }
  }

  lemma InTail(stack: seq<Ptr>, n: Ptr)
    ensures n in stack && n != stack[0] ==> n in stack[1..]
  {
  }

  lemma PopThread(s: State, g: Aux, t: Tid, c: nat, cur: Ptr, nxt: Ptr)
    requires NodesOk(s, g) && StacksOk(s, g) && ThreadsOk(s, g)
    requires PcOf(s, t) == PopCas(c, cur, nxt) && FullHead(s, c) == cur
    ensures ThreadOk(PoppedFull(s, t, c, cur, nxt), AuxPop(g, t, c, cur), t)
  {
    PopReadsTrueSuccessor(s, g, t, c, cur, nxt);
    assert NodeOk(s, g, cur) && ThreadOk(s, g, t);
  }

  lemma StageDomain(s: State, g: Aux)
    requires NodesOk(s, g)
    ensures g.stage.Keys == s.nodes && g.cls.Keys == s.nodes
  {
  }

  lemma PopKeepsInv(s: State, g: Aux, t: Tid, c: nat, cur: Ptr, nxt: Ptr)
    requires Popping(s, g, t, c, cur, nxt)
    ensures Inv(GoStep(s, t, Proceed), AuxPop(g, t, c, cur))
  {
    hide BlocksIn, StacksOk, NodesOk, ThreadsOk, SizesOk, MemoryOk, Framed, ThreadOk, GoStep;
    PopStep(s, t, c, cur, nxt);
    var s', g' := PoppedFull(s, t, c, cur, nxt), AuxPop(g, t, c, cur);
    PopReadsTrueSuccessor(s, g, t, c, cur, nxt);
    PopKeepsStacks(s, g, t, c, cur, nxt);
    PopFramed(s, g, t, c, cur, nxt);
    assert cur in s.nodes by { StageDomain(s, g); }
    PopKeepsNodes(s, g, t, c, cur, nxt);
    PopThread(s, g, t, c, cur, nxt);
    ThreadsFrame(s, g, s', g', t);
    SizesFrame(s, s');
    MemorySame(s, s');
  }

  lemma MemorySame(s: State, s': State)
    requires MemoryOk(s) && s'.carved == s.carved && s'.pages == s.pages && s'.large == s.large
    ensures MemoryOk(s')
  {
  }

  // A successful push of a full magazine

  ghost function AuxPushFull(g: Aux, c: nat, node: Ptr): Aux {
    g.(stage := g.stage[node := OnFull], full := g.full[c := [node] + FullOf(g, c)])
  }

  ghost predicate PushingFull(s: State, g: Aux, t: Tid, c: nat, node: Ptr, cur: Ptr) {
    && PcOf(s, t) == FullCas(c, node, cur) && FullHead(s, c) == cur
    && node != NULL && node in s.nodes && node in g.stage && g.stage[node] == New(t)
    && node in g.cls && g.cls[node] == c && Next(s, node) == cur && |NodeMag(s, node)| == MAGAZINE_CAPACITY
  }

  lemma PushingFullNow(s: State, g: Aux, t: Tid, c: nat, node: Ptr, cur: Ptr)
    requires NodesOk(s, g) && ThreadsOk(s, g) && PcOf(s, t) == FullCas(c, node, cur) && FullHead(s, c) == cur
    ensures PushingFull(s, g, t, c, node, cur)
  {
    OwnedNode(s, g, t);
    assert ThreadOk(s, g, t) && OwnerOk(s, g, t);
  }

  lemma PushFullKeepsStacks(s: State, g: Aux, t: Tid, c: nat, node: Ptr, cur: Ptr)
    requires StacksOk(s, g) && PushingFull(s, g, t, c, node, cur)
    ensures StacksOk(PushedFull(s, t, c, node), AuxPushFull(g, c, node))
  {
    hide StackOk;
    var s', g' := PushedFull(s, t, c, node), AuxPushFull(g, c, node);
    forall d
      ensures StackOk(s'.next, FullHead(s', d), FullOf(g', d), g', OnFull, d)
    {
      if d == c {
        PushStack(s.next, cur, FullOf(g, c), g, g', OnFull, c, node);
      } else {
        OtherStack(s.next, FullHead(s, d), FullOf(g, d), g, g', OnFull, d, node, OnFull);
      }
    }
    forall d
      ensures StackOk(s'.next, EmptyHead(s', d), EmptyOf(g', d), g', OnEmpty, d)
    {
      OtherStack(s.next, EmptyHead(s, d), EmptyOf(g, d), g, g', OnEmpty, d, node, OnFull);
    }
  }

  /** A stack does not notice that a node which is not on it moves to a stage. */
  lemma OtherStack(next: map<Ptr, Ptr>, head: Ptr, stack: seq<Ptr>, g: Aux, g': Aux, stage: Stage, d: nat, node: Ptr,
      to: Stage)
    requires StackOk(next, head, stack, g, stage, d) && node in g.stage && node in g.cls
    requires g.stage[node] != stage || g.cls[node] != d
    requires g'.stage == g.stage[node := to] && g'.cls == g.cls
    ensures StackOk(next, head, stack, g', stage, d)
  {
    hide Chain;
    StackFrame(next, next, head, stack, g, g', stage, d);
  }

  lemma PushFullFramed(s: State, g: Aux, t: Tid, c: nat, node: Ptr, cur: Ptr)
    requires NodesOk(s, g) && PushingFull(s, g, t, c, node, cur)
    ensures Framed(s, g, PushedFull(s, t, c, node), AuxPushFull(g, c, node), t)
  {
    hide NodeOk, OwnerOk;
    var s', g' := PushedFull(s, t, c, node), AuxPushFull(g, c, node);
    forall n | n in s.nodes
      ensures NodeFramed(s, g, s', g', t, n)
    {
      assert NodeMag(s', n) == NodeMag(s, n) && Next(s', n) == Next(s, n);
    }
  }

  lemma PushFullKeepsNode(s: State, g: Aux, t: Tid, c: nat, node: Ptr, cur: Ptr, n: Ptr)
    requires NodesOk(s, g) && n in s.nodes && PushingFull(s, g, t, c, node, cur)
    requires Framed(s, g, PushedFull(s, t, c, node), AuxPushFull(g, c, node), t)
    ensures NodeOk(PushedFull(s, t, c, node), AuxPushFull(g, c, node), n)
  {
    hide Framed;
    assert NodeOk(s, g, n);
    if n != node {
      assert !Owns(g, t, n);
      OthersKeepNodeOk(s, g, PushedFull(s, t, c, node), AuxPushFull(g, c, node), t, n);
    }
  }

  lemma PushFullKeepsNodes(s: State, g: Aux, t: Tid, c: nat, node: Ptr, cur: Ptr)
    requires NodesOk(s, g) && PushingFull(s, g, t, c, node, cur)
    requires Framed(s, g, PushedFull(s, t, c, node), AuxPushFull(g, c, node), t)
    ensures NodesOk(PushedFull(s, t, c, node), AuxPushFull(g, c, node))
  {
    hide Framed, NodeOk, FullOf;
    var s', g' := PushedFull(s, t, c, node), AuxPushFull(g, c, node);
    forall n | n in s'.nodes
      ensures NodeOk(s', g', n)
    {
      PushFullKeepsNode(s, g, t, c, node, cur, n);
    }
    forall u
      ensures OwnerOk(s', g', u)
    {
      if u != t {
        OthersKeepOwnerOk(s, g, s', g', t, u);
      }
    }
  }

  lemma PushFullThread(s: State, g: Aux, g': Aux, t: Tid, c: nat, node: Ptr, cur: Ptr)
    requires ThreadOk(s, g, t) && PcOf(s, t) == FullCas(c, node, cur) && FullHead(s, c) == cur
    ensures ThreadOk(PushedFull(s, t, c, node), g', t)
  {
  }

  lemma PushFullKeepsInv(s: State, g: Aux, t: Tid, c: nat, node: Ptr, cur: Ptr)
    requires Inv(s, g) && PcOf(s, t) == FullCas(c, node, cur) && FullHead(s, c) == cur
    ensures Inv(GoStep(s, t, Proceed), AuxPushFull(g, c, node))
  {
    hide BlocksIn, StacksOk, NodesOk, ThreadsOk, SizesOk, MemoryOk, Framed, ThreadOk, PushingFull, GoStep;
    PushFullStep(s, t, c, node, cur);
    var s', g' := PushedFull(s, t, c, node), AuxPushFull(g, c, node);
    PushingFullNow(s, g, t, c, node, cur);
    Bounds(s, g, t, c);
    PushFullKeepsStacks(s, g, t, c, node, cur);
    PushFullFramed(s, g, t, c, node, cur);
    PushFullKeepsNodes(s, g, t, c, node, cur);
    PushFullThread(s, g, g', t, c, node, cur);
    ThreadsFrame(s, g, s', g', t);
    SizesFrame(s, s');
    MemorySame(s, s');
  }

  // A successful push of an emptied magazine

  ghost function AuxPushEmpty(g: Aux, c: nat, node: Ptr): Aux {
    g.(stage := g.stage[node := OnEmpty], empty := g.empty[c := [node] + EmptyOf(g, c)])
  }

  ghost predicate PushingEmpty(s: State, g: Aux, t: Tid, c: nat, node: Ptr, cur: Ptr) {
    && PcOf(s, t) == EmptyCas(c, node, cur) && EmptyHead(s, c) == cur
    && node != NULL && node in s.nodes && node in g.stage && g.stage[node] == Popped(t)
    && node in g.cls && g.cls[node] == c && Next(s, node) == cur && NodeMag(s, node) == []
  }

  lemma PushingEmptyNow(s: State, g: Aux, t: Tid, c: nat, node: Ptr, cur: Ptr)
    requires NodesOk(s, g) && ThreadsOk(s, g) && PcOf(s, t) == EmptyCas(c, node, cur) && EmptyHead(s, c) == cur
    ensures PushingEmpty(s, g, t, c, node, cur)
  {
    OwnedNode(s, g, t);
    assert ThreadOk(s, g, t) && OwnerOk(s, g, t);
  }

  lemma PushEmptyKeepsStacks(s: State, g: Aux, t: Tid, c: nat, node: Ptr, cur: Ptr)
    requires StacksOk(s, g) && PushingEmpty(s, g, t, c, node, cur)
    ensures StacksOk(PushedEmpty(s, t, c, node), AuxPushEmpty(g, c, node))
  {
    hide StackOk;
    var s', g' := PushedEmpty(s, t, c, node), AuxPushEmpty(g, c, node);
    forall d
      ensures StackOk(s'.next, FullHead(s', d), FullOf(g', d), g', OnFull, d)
    {
      OtherStack(s.next, FullHead(s, d), FullOf(g, d), g, g', OnFull, d, node, OnEmpty);
    }
    forall d
      ensures StackOk(s'.next, EmptyHead(s', d), EmptyOf(g', d), g', OnEmpty, d)
    {
      if d == c {
        PushStack(s.next, cur, EmptyOf(g, c), g, g', OnEmpty, c, node);
      } else {
        OtherStack(s.next, EmptyHead(s, d), EmptyOf(g, d), g, g', OnEmpty, d, node, OnEmpty);
      }
    }
  }

  lemma PushEmptyFramed(s: State, g: Aux, t: Tid, c: nat, node: Ptr, cur: Ptr)
    requires NodesOk(s, g) && PushingEmpty(s, g, t, c, node, cur)
    ensures Framed(s, g, PushedEmpty(s, t, c, node), AuxPushEmpty(g, c, node), t)
  {
    hide NodeOk, OwnerOk;
    var s', g' := PushedEmpty(s, t, c, node), AuxPushEmpty(g, c, node);
    forall n | n in s.nodes
      ensures NodeFramed(s, g, s', g', t, n)
    {
      assert NodeMag(s', n) == NodeMag(s, n) && Next(s', n) == Next(s, n);
    }
  }

  lemma PushEmptyKeepsNode(s: State, g: Aux, t: Tid, c: nat, node: Ptr, cur: Ptr, n: Ptr)
    requires NodesOk(s, g) && n in s.nodes && PushingEmpty(s, g, t, c, node, cur)
    requires Framed(s, g, PushedEmpty(s, t, c, node), AuxPushEmpty(g, c, node), t)
    ensures NodeOk(PushedEmpty(s, t, c, node), AuxPushEmpty(g, c, node), n)
  {
    hide Framed;
    assert NodeOk(s, g, n);
    if n != node {
      assert !Owns(g, t, n);
      OthersKeepNodeOk(s, g, PushedEmpty(s, t, c, node), AuxPushEmpty(g, c, node), t, n);
    }
  }

  lemma PushEmptyKeepsNodes(s: State, g: Aux, t: Tid, c: nat, node: Ptr, cur: Ptr)
    requires NodesOk(s, g) && PushingEmpty(s, g, t, c, node, cur)
    requires Framed(s, g, PushedEmpty(s, t, c, node), AuxPushEmpty(g, c, node), t)
    ensures NodesOk(PushedEmpty(s, t, c, node), AuxPushEmpty(g, c, node))
  {
    hide Framed, NodeOk, EmptyOf;
    var s', g' := PushedEmpty(s, t, c, node), AuxPushEmpty(g, c, node);
    forall n | n in s'.nodes
      ensures NodeOk(s', g', n)
    {
      PushEmptyKeepsNode(s, g, t, c, node, cur, n);
    }
    forall u
      ensures OwnerOk(s', g', u)
    {
      if u != t {
        OthersKeepOwnerOk(s, g, s', g', t, u);
      }
    }
  }

  lemma PushEmptyThread(s: State, g: Aux, g': Aux, t: Tid, c: nat, node: Ptr, cur: Ptr)
    requires ThreadOk(s, g, t) && PcOf(s, t) == EmptyCas(c, node, cur) && EmptyHead(s, c) == cur
    ensures ThreadOk(PushedEmpty(s, t, c, node), g', t)
  {
  }

  lemma PushEmptyKeepsInv(s: State, g: Aux, t: Tid, c: nat, node: Ptr, cur: Ptr)
    requires Inv(s, g) && PcOf(s, t) == EmptyCas(c, node, cur) && EmptyHead(s, c) == cur
    ensures Inv(GoStep(s, t, Proceed), AuxPushEmpty(g, c, node))
  {
    hide BlocksIn, StacksOk, NodesOk, ThreadsOk, SizesOk, MemoryOk, Framed, ThreadOk, PushingEmpty, GoStep;
    PushEmptyStep(s, t, c, node, cur);
    var s', g' := PushedEmpty(s, t, c, node), AuxPushEmpty(g, c, node);
    PushingEmptyNow(s, g, t, c, node, cur);
    Bounds(s, g, t, c);
    PushEmptyKeepsStacks(s, g, t, c, node, cur);
    PushEmptyFramed(s, g, t, c, node, cur);
    PushEmptyKeepsNodes(s, g, t, c, node, cur);
    PushEmptyThread(s, g, g', t, c, node, cur);
    ThreadsFrame(s, g, s', g', t);
    SizesFrame(s, s');
    MemorySame(s, s');
  }

  // A node fresh from `alloc_node`

  ghost function AuxNode(g: Aux, t: Tid, c: nat, node: Ptr): Aux {
    g.(stage := g.stage[node := New(t)], cls := g.cls[node := c])
  }

  ghost predicate GettingNode(s: State, g: Aux, t: Tid, c: nat, node: Ptr) {
    && PcOf(s, t) == NeedNode(c) && node != NULL && node !in s.nodes
    && g.stage.Keys == s.nodes && g.cls.Keys == s.nodes && NodeMag(s, node) == []
  }

  lemma NodeFrameNew(s: State, g: Aux, t: Tid, c: nat, node: Ptr)
    requires NodesOk(s, g) && GettingNode(s, g, t, c, node)
    ensures Framed(s, g, GotNode(s, t, c, node), AuxNode(g, t, c, node), t)
  {
    hide NodeOk, OwnerOk;
    var s', g' := GotNode(s, t, c, node), AuxNode(g, t, c, node);
    forall n | n in s.nodes
      ensures NodeFramed(s, g, s', g', t, n)
    {
      assert NodeMag(s', n) == NodeMag(s, n) && Next(s', n) == Next(s, n);
    }
  }

  lemma NewNodeKeepsNode(s: State, g: Aux, t: Tid, c: nat, node: Ptr, n: Ptr)
    requires NodesOk(s, g) && GettingNode(s, g, t, c, node) && (n in s.nodes || n == node)
    requires Framed(s, g, GotNode(s, t, c, node), AuxNode(g, t, c, node), t)
    ensures NodeOk(GotNode(s, t, c, node), AuxNode(g, t, c, node), n)
  {
    hide Framed;
    if n != node {
      assert NodeOk(s, g, n);
      assert !Owns(g, t, n);
      OthersKeepNodeOk(s, g, GotNode(s, t, c, node), AuxNode(g, t, c, node), t, n);
    }
  }

  lemma NewNodeKeepsNodes(s: State, g: Aux, t: Tid, c: nat, node: Ptr)
    requires NodesOk(s, g) && GettingNode(s, g, t, c, node)
    requires Framed(s, g, GotNode(s, t, c, node), AuxNode(g, t, c, node), t)
    ensures NodesOk(GotNode(s, t, c, node), AuxNode(g, t, c, node))
  {
    hide Framed, NodeOk;
    var s', g' := GotNode(s, t, c, node), AuxNode(g, t, c, node);
    forall n | n in s'.nodes
      ensures NodeOk(s', g', n)
    {
      NewNodeKeepsNode(s, g, t, c, node, n);
    }
    forall u
      ensures OwnerOk(s', g', u)
    {
      if u != t {
        OthersKeepOwnerOk(s, g, s', g', t, u);
      }
    }
  }

  lemma NewNodeKeepsStacks(s: State, g: Aux, t: Tid, c: nat, node: Ptr)
    requires StacksOk(s, g) && GettingNode(s, g, t, c, node)
    ensures StacksOk(GotNode(s, t, c, node), AuxNode(g, t, c, node))
  {
    StacksFrame(s, g, GotNode(s, t, c, node), AuxNode(g, t, c, node));
  }

  lemma NewNodeKeepsBlocks(s: State, g: Aux, t: Tid, c: nat, node: Ptr)
    requires BlocksOk(s, g) && GettingNode(s, g, t, c, node)
    ensures BlocksOk(GotNode(s, t, c, node), AuxNode(g, t, c, node))
  {
  }

  lemma NewNodeThread(s: State, g: Aux, t: Tid, c: nat, node: Ptr)
    requires ThreadOk(s, g, t) && GettingNode(s, g, t, c, node)
    ensures ThreadOk(GotNode(s, t, c, node), AuxNode(g, t, c, node), t)
  {
  }

  lemma GettingNodeNow(s: State, g: Aux, t: Tid, c: nat, node: Ptr)
    requires NodesOk(s, g) && SizesOk(s) && PcOf(s, t) == NeedNode(c) && node != NULL && node !in s.nodes
    ensures GettingNode(s, g, t, c, node)
  {
    hide NodeOk, OwnerOk;
    assert NodeMag(s, node) == [];
  }

  lemma SizesMoreNodes(s: State, s': State)
    requires SizesOk(s) && s'.box == s.box && s.nodes <= s'.nodes && s'.bulkPages == s.bulkPages
    ensures SizesOk(s')
  {
    forall n | n !in s'.nodes
      ensures NodeMag(s', n) == []
    {
      assert NodeMag(s, n) == [];
    }
    forall t, c
      ensures |AllocMag(s', t, c)| <= MAGAZINE_CAPACITY && |FreeMag(s', t, c)| <= MAGAZINE_CAPACITY
    {
      assert AllocMag(s', t, c) == AllocMag(s, t, c) && FreeMag(s', t, c) == FreeMag(s, t, c);
    }
  }

  lemma NewNodeKeepsInv(s: State, g: Aux, t: Tid, c: nat, node: Ptr)
    requires Inv(s, g) && PcOf(s, t) == NeedNode(c) && node != NULL && node !in s.nodes
    ensures Inv(GoStep(s, t, FreshNode(node)), AuxNode(g, t, c, node))
  {
    hide BlocksIn, StacksOk, NodesOk, ThreadsOk, SizesOk, MemoryOk, Framed, ThreadOk, GettingNode, GoStep;
    GetNodeStep(s, t, c, node);
    var s', g' := GotNode(s, t, c, node), AuxNode(g, t, c, node);
    GettingNodeNow(s, g, t, c, node);
    Bounds(s, g, t, c);
    NewNodeKeepsBlocks(s, g, t, c, node);
    NewNodeKeepsStacks(s, g, t, c, node);
    NodeFrameNew(s, g, t, c, node);
    NewNodeKeepsNodes(s, g, t, c, node);
    NewNodeThread(s, g, t, c, node);
    ThreadsFrame(s, g, s', g', t);
    SizesMoreNodes(s, s');
    MemorySame(s, s');
  }

  // ------------------------------------------------------------------
  // Memory: carving and large mappings
  // ------------------------------------------------------------------

  /** A mapped range does not meet a run of unmapped pages. */
  lemma MappedApartFromFresh(pages: set<nat>, a: nat, size: nat, base: nat, count: nat)
    requires Mapped(pages, a, size) && base % PAGE_SIZE == 0 && PageRun(base, count) !! pages
    requires size >= 1 && count >= 1
    ensures Apart(a, size, base, count * PAGE_SIZE)
  {
    var p: nat := (if a < base then base else a) / PAGE_SIZE;
    var far, within := Apart(a, size, base, count * PAGE_SIZE), InRun(p, base, count);
    assert within ==> p in PageRun(base, count);
    assert far || (within && p in pages);
  }

  /** A range inside a run is mapped once the run is. */
  lemma RunMaps(pages: set<nat>, a: nat, size: nat, base: nat, count: nat)
    requires base % PAGE_SIZE == 0 && base <= a && a + size <= base + count * PAGE_SIZE
    ensures Mapped(pages + PageRun(base, count), a, size)
  {
    forall p | a / PAGE_SIZE <= p && p * PAGE_SIZE < a + size
      ensures p in pages + PageRun(base, count)
    {
      assert InRun(p, base, count);
    }
  }

  lemma MappedMonotone(pages: set<nat>, more: set<nat>, a: nat, size: nat)
    requires Mapped(pages, a, size)
    ensures Mapped(pages + more, a, size)
  {
  }

  /** Unmapping a run leaves every range apart from it mapped. */
  lemma UnmapKeepsOthers(pages: set<nat>, a: nat, size: nat, base: nat, count: nat)
    requires Mapped(pages, a, size) && base % PAGE_SIZE == 0 && Apart(a, size, base, count * PAGE_SIZE)
    ensures Mapped(pages - PageRun(base, count), a, size)
  {
    forall p | a / PAGE_SIZE <= p && p * PAGE_SIZE < a + size
      ensures p in pages - PageRun(base, count)
    {
      assert p in pages && !InRun(p, base, count);
    }
  }

  lemma MapLargeKeepsMemory(s: State, base: nat, count: nat)
    requires MemoryOk(s) && count >= 1 && FreshRun(s, base, count)
    ensures MemoryOk(s.(pages := s.pages + PageRun(base, count), large := s.large[base := count]))
  {
    hide Mapped, Apart, BlockSize, PageRun;
    var pages, large := s.pages + PageRun(base, count), s.large[base := count];
    GrowBlockMemory(s.carved, s.pages, PageRun(base, count));
    forall b | b in large
      ensures b > 0 && b % PAGE_SIZE == 0 && large[b] >= 1 && Mapped(pages, b, large[b] * PAGE_SIZE)
    {
      if b == base {
        RunMaps(s.pages, base, count * PAGE_SIZE, base, count);
      } else {
        MappedMonotone(s.pages, PageRun(base, count), b, large[b] * PAGE_SIZE);
      }
    }
    forall b | b in s.large && b != base
      ensures Apart(b, s.large[b] * PAGE_SIZE, base, count * PAGE_SIZE)
      ensures Apart(base, count * PAGE_SIZE, b, s.large[b] * PAGE_SIZE)
    {
      MappedApartFromFresh(s.pages, b, s.large[b] * PAGE_SIZE, base, count);
      ApartSym(b, s.large[b] * PAGE_SIZE, base, count * PAGE_SIZE);
    }
    forall b | b in s.carved
      ensures Apart(b, BlockSize(s.carved[b]), base, count * PAGE_SIZE)
    {
      BlockSizePositive(s.carved[b]);
      MappedApartFromFresh(s.pages, b, BlockSize(s.carved[b]), base, count);
    }
  }

  lemma ApartSym(a: nat, m: nat, b: nat, n: nat)
    ensures Apart(a, m, b, n) <==> Apart(b, n, a, m)
  {
  }

  lemma BlockSizePositive(c: nat)
    ensures BlockSize(c) >= 1
  {
  }

  lemma GrowBlockMemory(carved: map<nat, nat>, pages: set<nat>, more: set<nat>)
    requires BlockMemoryOk(carved, pages)
    ensures BlockMemoryOk(carved, pages + more)
  {
    hide Mapped, Apart, BlockSize;
    forall b | b in carved
      ensures Mapped(pages + more, b, BlockSize(carved[b]))
    {
      MappedMonotone(pages, more, b, BlockSize(carved[b]));
    }
  }

  lemma GrowLargeMemory(large: map<nat, nat>, pages: set<nat>, more: set<nat>)
    requires LargeMemoryOk(large, pages)
    ensures LargeMemoryOk(large, pages + more)
  {
    hide Mapped, Apart;
    forall b | b in large
      ensures Mapped(pages + more, b, large[b] * PAGE_SIZE)
    {
      MappedMonotone(pages, more, b, large[b] * PAGE_SIZE);
    }
  }

  lemma UnmapLargeKeepsMemory(s: State, base: nat)
    requires MemoryOk(s) && base in s.large
    ensures MemoryOk(s.(pages := s.pages - PageRun(base, s.large[base]), large := s.large - {base}))
  {
    hide Mapped, Apart, BlockSize, PageRun;
    var count := s.large[base];
    var pages := s.pages - PageRun(base, count);
    forall b | b in s.carved
      ensures Mapped(pages, b, BlockSize(s.carved[b]))
    {
      UnmapKeepsOthers(s.pages, b, BlockSize(s.carved[b]), base, count);
    }
    forall b | b in s.large && b != base
      ensures Mapped(pages, b, s.large[b] * PAGE_SIZE)
    {
      UnmapKeepsOthers(s.pages, b, s.large[b] * PAGE_SIZE, base, count);
    }
  }

  /** New blocks cut from a fresh run of pages, apart from each other. */
  ghost predicate CutFrom(blocks: map<nat, nat>, base: nat, count: nat) {
    && (forall b :: b in blocks ==>
          && blocks[b] < NUM_CLASSES && b > 0 && b % 16 == 0
          && base <= b && b + BlockSize(blocks[b]) <= base + count * PAGE_SIZE)
    && (forall a, b :: a in blocks && b in blocks && a != b ==> Apart(a, BlockSize(blocks[a]), b, BlockSize(blocks[b])))
  }

  lemma CutBlocksAreNew(carved: map<nat, nat>, pages: set<nat>, blocks: map<nat, nat>, base: nat, count: nat, a: nat,
      b: nat)
    requires BlockMemoryOk(carved, pages) && CutFrom(blocks, base, count)
    requires count >= 1 && base % PAGE_SIZE == 0 && PageRun(base, count) !! pages
    requires a in carved && b in blocks
    ensures a != b
    ensures Apart(a, BlockSize(carved[a]), b, BlockSize(blocks[b]))
  {
    hide Mapped, BlockSize, PageRun;
    BlockSizePositive(carved[a]);
    BlockSizePositive(blocks[b]);
    MappedApartFromFresh(pages, a, BlockSize(carved[a]), base, count);
  }

  lemma CutKeepsBlockMemory(carved: map<nat, nat>, pages: set<nat>, blocks: map<nat, nat>, base: nat, count: nat)
    requires BlockMemoryOk(carved, pages) && CutFrom(blocks, base, count)
    requires count >= 1 && base % PAGE_SIZE == 0 && PageRun(base, count) !! pages
    ensures BlockMemoryOk(carved + blocks, pages + PageRun(base, count))
    ensures carved.Keys !! blocks.Keys
  {
    hide Mapped, Apart, BlockSize, PageRun;
    GrowBlockMemory(carved, pages, PageRun(base, count));
    forall a, b | a in carved && b in blocks
      ensures a != b
      ensures Apart(a, BlockSize(carved[a]), b, BlockSize(blocks[b]))
      ensures Apart(b, BlockSize(blocks[b]), a, BlockSize(carved[a]))
    {
      CutBlocksAreNew(carved, pages, blocks, base, count, a, b);
      ApartSym(a, BlockSize(carved[a]), b, BlockSize(blocks[b]));
    }
    forall b | b in blocks
      ensures Mapped(pages + PageRun(base, count), b, BlockSize(blocks[b]))
    {
      RunMaps(pages, b, BlockSize(blocks[b]), base, count);
    }
  }

  lemma CutApartFromLarge(s: State, blocks: map<nat, nat>, base: nat, count: nat, a: nat, b: nat)
    requires MemoryOk(s) && CutFrom(blocks, base, count)
    requires count >= 1 && base % PAGE_SIZE == 0 && PageRun(base, count) !! s.pages
    requires a in blocks && b in s.large
    ensures Apart(a, BlockSize(blocks[a]), b, s.large[b] * PAGE_SIZE)
  {
    hide Mapped, BlockSize, PageRun;
    MappedApartFromFresh(s.pages, b, s.large[b] * PAGE_SIZE, base, count);
  }

  lemma CutKeepsMemory(s: State, s': State, blocks: map<nat, nat>, base: nat, count: nat)
    requires MemoryOk(s) && CutFrom(blocks, base, count) && count >= 1 && FreshRun(s, base, count)
    requires s'.carved == s.carved + blocks && s'.pages == s.pages + PageRun(base, count) && s'.large == s.large
    ensures MemoryOk(s')
    ensures s.carved.Keys !! blocks.Keys
  {
    hide Mapped, Apart, BlockSize, PageRun, CutFrom;
    CutKeepsBlockMemory(s.carved, s.pages, blocks, base, count);
    GrowLargeMemory(s.large, s.pages, PageRun(base, count));
    forall a, b | a in blocks && b in s.large
      ensures Apart(a, BlockSize(blocks[a]), b, s.large[b] * PAGE_SIZE)
    {
      CutApartFromLarge(s, blocks, base, count, a, b);
    }
  }

  // ------------------------------------------------------------------
  // Carving
  // ------------------------------------------------------------------

  lemma PageBlockBounds(base: nat, c: nat, i: nat)
    requires c < NUM_CLASSES && i < BlocksPerPage(c) && base % PAGE_SIZE == 0
    ensures base + i * BlockSize(c) + BlockSize(c) <= base + PAGE_SIZE
    ensures (base + i * BlockSize(c)) % 16 == 0
  {
    hide BlockSize, BlocksPerPage, Overflow, Refill, PagesForBlock;
    ClassGeometry(c);
    LastFits(i, BlocksPerPage(c), BlockSize(c));
    MultipleOfSixteen(i, BlockSize(c));
    SumOfSixteens(base, i * BlockSize(c));
  }

  lemma LastFits(i: nat, n: nat, z: nat)
    requires i < n
    ensures i * z + z <= n * z
  {
    MulMonotone(i + 1, n, z);
    Distribute(i + 1, 1, z);
  }

  lemma SumOfSixteens(a: nat, b: nat)
    requires a % PAGE_SIZE == 0 && b % 16 == 0
    ensures (a + b) % 16 == 0
  {
  }

  lemma MulMonotone(i: nat, n: nat, z: nat)
    requires i <= n
    ensures i * z <= n * z
  {
    assert (n - i) * z >= 0;
    Distribute(n, i, z);
  }

  lemma MultipleOfSixteen(i: nat, z: nat)
    requires z % 16 == 0
    ensures (i * z) % 16 == 0
  {
    var q := z / 16;
    assert i * z == (i * q) * 16 by {
      assert z == q * 16;
    }
    ModIs(i * z, 16, i * q, 0);
  }

  lemma PageBlocksApart(base: nat, c: nat, i: nat, j: nat)
    requires i < j
    ensures base + i * BlockSize(c) + BlockSize(c) <= base + j * BlockSize(c)
  {
    hide BlockSize;
    LastFits(i, j, BlockSize(c));
  }

  lemma PageBlocksDistinct(base: nat, c: nat)
    ensures Distinct(PageBlocks(base, c))
  {
    hide BlockSize, BlocksPerPage;
    var blocks := PageBlocks(base, c);
    forall i, j | 0 <= i < j < |blocks|
      ensures blocks[i] != blocks[j]
    {
      PageBlocksApart(base, c, i, j);
      BlockSizePositive(c);
    }
  }

  lemma PageBlockIndex(base: nat, c: nat, b: nat) returns (i: nat)
    requires b in PageBlocks(base, c)
    ensures i < BlocksPerPage(c) && b == base + i * BlockSize(c)
  {
    hide BlockSize, BlocksPerPage;
    var blocks := PageBlocks(base, c);
    i :| 0 <= i < |blocks| && blocks[i] == b;
  }

  lemma PageBlockPairApart(base: nat, c: nat, a: nat, b: nat)
    requires a in PageBlocks(base, c) && b in PageBlocks(base, c) && a != b
    ensures Apart(a, BlockSize(c), b, BlockSize(c))
  {
    hide BlockSize, BlocksPerPage, PageBlocks;
    var i := PageBlockIndex(base, c, a);
    var j := PageBlockIndex(base, c, b);
    if i < j {
      PageBlocksApart(base, c, i, j);
    } else {
      PageBlocksApart(base, c, j, i);
    }
  }

  lemma PageIsCut(base: nat, c: nat)
    requires c < NUM_CLASSES && base > 0 && base % PAGE_SIZE == 0
    ensures CutFrom(map b | b in PageBlocks(base, c) :: c, base, 1)
  {
    hide BlockSize, BlocksPerPage, PageBlocks, Apart;
    forall b | b in PageBlocks(base, c)
      ensures b > 0 && b % 16 == 0 && base <= b && b + BlockSize(c) <= base + PAGE_SIZE
    {
      var i := PageBlockIndex(base, c, b);
      PageBlockBounds(base, c, i);
      assert i * BlockSize(c) >= 0;
    }
    forall a, b | a in PageBlocks(base, c) && b in PageBlocks(base, c) && a != b
      ensures Apart(a, BlockSize(c), b, BlockSize(c))
    {
      PageBlockPairApart(base, c, a, b);
    }
  }

  lemma SingleIsCut(base: nat, c: nat)
    requires c < NUM_CLASSES && base > 0 && base % PAGE_SIZE == 0
    ensures CutFrom(map[base := c], base, PagesForBlock(c))
    ensures PagesForBlock(c) >= 1
  {
    hide BlockSize, BlocksPerPage, Overflow, Refill, PagesForBlock;
    ClassGeometry(c);
  }

  ghost function Put(place: map<nat, Place>, blocks: seq<nat>, l: Place): map<nat, Place> {
    place + map b | b in blocks :: l
  }

  ghost function AuxCarve(s: State, g: Aux, t: Tid, c: nat, base: nat): Aux {
    var blocks := PageBlocks(base, c);
    if |blocks| <= 1 then g
    else
      var room := BulkRoom(|AllocMag(s, t, c)|, |blocks| - 1);
      g.(place := Put(Put(Put(g.place, blocks[..1], Live), blocks[1..1 + room], InAlloc(t, c)), blocks[1 + room..],
          HadNoRoom(c)))
  }

  /** Splitting a duplicate-free sequence in three. */
  lemma Cuts(blocks: seq<nat>, i: nat, j: nat)
    requires Distinct(blocks) && i <= j <= |blocks|
    ensures Distinct(blocks[..i]) && Distinct(blocks[i..j]) && Distinct(blocks[j..])
    ensures forall b :: b in blocks <==> b in blocks[..i] || b in blocks[i..j] || b in blocks[j..]
    ensures forall b :: b in blocks[i..j] ==> b !in blocks[..i]
    ensures forall b :: b in blocks[j..] ==> b !in blocks[..i] && b !in blocks[i..j]
  {
    forall b | b in blocks
      ensures b in blocks[..i] || b in blocks[i..j] || b in blocks[j..]
    {
      var k :| 0 <= k < |blocks| && blocks[k] == b;
      if k < i {
        assert blocks[..i][k] == b;
      } else if k < j {
        assert blocks[i..j][k - i] == b;
      } else {
        assert blocks[j..][k - j] == b;
      }
    }
  }

  lemma CarvePlaces(box: Boxes, place: map<nat, Place>, blocks: seq<nat>, i: nat, j: nat, l0: Place, l1: Place,
      l2: Place)
    requires Placed(box, place) && Distinct(blocks) && i <= j <= |blocks|
    requires forall b :: b in blocks ==> b !in place
    ensures Placed(Fresh(Fresh(Fresh(box, l0, blocks[..i]), l1, blocks[i..j]), l2, blocks[j..]),
                   Put(Put(Put(place, blocks[..i], l0), blocks[i..j], l1), blocks[j..], l2))
  {
    hide Fresh, Placed;
    Cuts(blocks, i, j);
    FreshKeepsPlaced(box, place, l0, blocks[..i]);
    var p1 := Put(place, blocks[..i], l0);
    FreshKeepsPlaced(Fresh(box, l0, blocks[..i]), p1, l1, blocks[i..j]);
    var p2 := Put(p1, blocks[i..j], l1);
    FreshKeepsPlaced(Fresh(Fresh(box, l0, blocks[..i]), l1, blocks[i..j]), p2, l2, blocks[j..]);
  }

  lemma PutKeys(place: map<nat, Place>, blocks: seq<nat>, l: Place)
    ensures var place' := Put(place, blocks, l);
            && (forall b :: b in place' <==> b in place || b in blocks)
            && (forall b :: b in place' ==> place'[b] == if b in blocks then l else place[b])
  {
  }

  lemma CarveKeys(place: map<nat, Place>, blocks: seq<nat>, i: nat, j: nat, l0: Place, l1: Place, l2: Place)
    requires Distinct(blocks) && i <= j <= |blocks|
    requires forall b :: b in blocks ==> b !in place
    ensures var place' := Put(Put(Put(place, blocks[..i], l0), blocks[i..j], l1), blocks[j..], l2);
            && place'.Keys == place.Keys + (set b | b in blocks)
            && (forall b :: b in place ==> place'[b] == place[b])
            && (forall b :: b in blocks ==> place'[b] == l0 || place'[b] == l1 || place'[b] == l2)
  {
    hide Put;
    Cuts(blocks, i, j);
    hide Distinct;
    var p1 := Put(place, blocks[..i], l0);
    var p2 := Put(p1, blocks[i..j], l1);
    PutKeys(place, blocks[..i], l0);
    PutKeys(p1, blocks[i..j], l1);
    PutKeys(p2, blocks[j..], l2);
  }

  lemma CarveBlocksIn(box: Boxes, carved: map<nat, nat>, place: map<nat, Place>, cls: map<Ptr, nat>, blocks: seq<nat>,
      j: nat, t: Tid, c: nat)
    requires BlocksIn(box, carved, place, cls) && Distinct(blocks) && 1 <= j <= |blocks|
    requires forall b :: b in blocks ==> b !in carved
    ensures BlocksIn(Fresh(Fresh(Fresh(box, Live, blocks[..1]), InAlloc(t, c), blocks[1..j]), HadNoRoom(c),
            blocks[j..]),
                     carved + (map b | b in blocks :: c),
                     Put(Put(Put(place, blocks[..1], Live), blocks[1..j], InAlloc(t, c)), blocks[j..], HadNoRoom(c)),
                         cls)
  {
    hide Fresh, Placed, Put;
    CarvePlaces(box, place, blocks, 1, j, Live, InAlloc(t, c), HadNoRoom(c));
    CarveKeys(place, blocks, 1, j, Live, InAlloc(t, c), HadNoRoom(c));
  }

  lemma CarveKeepsBlocks(s: State, g: Aux, t: Tid, c: nat, base: nat)
    requires BlocksOk(s, g) && BlocksPerPage(c) > 1
    requires forall b :: b in PageBlocks(base, c) ==> b !in s.carved
    ensures BlocksOk(CarvePage(s, t, c, base), AuxCarve(s, g, t, c, base))
  {
    hide Fresh, BlocksIn, BlockSize, BlocksPerPage, BulkRoom, Put;
    var room := CarveRoom(s, t, c, base);
    PageBlocksDistinct(base, c);
    CarveBlocksIn(s.box, s.carved, g.place, g.cls, PageBlocks(base, c), 1 + room, t, c);
  }

  lemma CarveRoom(s: State, t: Tid, c: nat, base: nat) returns (room: nat)
    requires BlocksPerPage(c) > 1
    ensures room == BulkRoom(|AllocMag(s, t, c)|, |PageBlocks(base, c)| - 1)
    ensures 1 + room <= |PageBlocks(base, c)|
  {
    room := BulkRoom(|AllocMag(s, t, c)|, |PageBlocks(base, c)| - 1);
  }

  lemma CarveSizes(s: State, t: Tid, c: nat, base: nat)
    requires SizesOk(s) && AllocMag(s, t, c) == [] && c < NUM_CLASSES && BlocksPerPage(c) > 1
    ensures SizesOk(CarvePage(s, t, c, base))
  {
    hide BlockSize, BlocksPerPage, Overflow, PagesForBlock, NoRoomOk;
    ClassGeometry(c);
    var s' := CarvePage(s, t, c, base);
    var blocks := PageBlocks(base, c);
    var room := CarveRoom(s, t, c, base);
    assert room == Refill(c);
    forall u: Tid, d: nat
      ensures |AllocMag(s', u, d)| <= MAGAZINE_CAPACITY && |FreeMag(s', u, d)| <= MAGAZINE_CAPACITY
    {
      assert |AllocMag(s, u, d)| <= MAGAZINE_CAPACITY && |FreeMag(s, u, d)| <= MAGAZINE_CAPACITY;
    }
    forall n | n !in s'.nodes
      ensures NodeMag(s', n) == []
    {
      assert NodeMag(s, n) == [];
    }
    forall d: nat | d < NUM_CLASSES
      ensures NoRoomOk(At(s'.box, HadNoRoom(d)), BulkPages(s', d), d)
    {
      assert NoRoomOk(At(s.box, HadNoRoom(d)), BulkPages(s, d), d);
      if d == c {
        OneMorePage(At(s.box, HadNoRoom(c)), blocks[1 + room..], BulkPages(s, c), c);
      }
    }
  }

  lemma OneMorePage(old_: seq<nat>, extra: seq<nat>, pages: nat, c: nat)
    requires NoRoomOk(old_, pages, c) && |extra| == Overflow(c)
    ensures NoRoomOk(old_ + extra, pages + 1, c)
  {
    hide Overflow;
    Distribute(pages + 1, 1, Overflow(c));
  }

  lemma CarvesOwnBoxes(s: State, t: Tid, c: nat, base: nat)
    requires BlocksPerPage(c) > 1
    ensures var s' := CarvePage(s, t, c, base);
            && s'.pc == s.pc && s'.next == s.next
            && forall l :: l != Live && l != InAlloc(t, c) && l != HadNoRoom(c) ==> At(s'.box, l) == At(s.box, l)
  {
    hide BlockSize, BlocksPerPage, BulkRoom;
  }

  /** Boxes outside the carving thread's own are untouched. */
  lemma CarveFramed(s: State, g: Aux, t: Tid, c: nat, base: nat)
    requires NodesOk(s, g) && BlocksPerPage(c) > 1
    ensures Framed(s, g, CarvePage(s, t, c, base), AuxCarve(s, g, t, c, base), t)
  {
    hide NodeOk, OwnerOk, BlockSize, BlocksPerPage, BulkRoom, Put, PageBlocks, CarvePage;
    var s', g' := CarvePage(s, t, c, base), AuxCarve(s, g, t, c, base);
    CarvesOwnBoxes(s, t, c, base);
    assert g' == g.(place := g'.place);
    hide AuxCarve;
    forall n | n in s.nodes
      ensures NodeFramed(s, g, s', g', t, n)
    {
      assert NodeMag(s', n) == NodeMag(s, n);
    }
  }

  lemma CarveThread(s: State, g: Aux, g': Aux, t: Tid, c: nat, base: nat)
    requires ThreadOk(s, g, t) && PcOf(s, t).Idle? && BlocksPerPage(c) > 1
    ensures ThreadOk(CarvePage(s, t, c, base), g', t)
  {
    hide BlockSize, BlocksPerPage, BulkRoom;
    var s' := CarvePage(s, t, c, base);
    assert PcOf(s', t).Idle?;
    forall d: nat
      ensures |At(s'.box, InHand(t, d))| == 0
    {
      assert |At(s.box, InHand(t, d))| == 0;
    }
  }

  /** Keeping the invariant when a carve changed boxes, carved blocks and pages. */
  lemma CarveStep(s: State, g: Aux, s': State, g': Aux, t: Tid)
    requires Inv(s, g) && Framed(s, g, s', g', t) && SameNodeAux(g, g') && SameOwned(PcOf(s, t), PcOf(s', t))
    requires s'.fullHead == s.fullHead && s'.emptyHead == s.emptyHead && s'.nodes == s.nodes
    requires BlocksOk(s', g') && ThreadOk(s', g', t) && SizesOk(s') && MemoryOk(s')
    ensures Inv(s', g')
  {
    hide BlocksIn, NodesOk, ThreadsOk, SizesOk, Framed, ThreadOk, MemoryOk;
    NodesFrame(s, g, s', g', t);
    ThreadsFrame(s, g, s', g', t);
    StacksUnowned(s, g, s', g', t);
  }

  lemma CarvePageMemory(s: State, t: Tid, c: nat, base: nat)
    requires MemoryOk(s) && c < NUM_CLASSES && BlocksPerPage(c) > 1 && FreshRun(s, base, 1)
    ensures MemoryOk(CarvePage(s, t, c, base))
    ensures forall b :: b in PageBlocks(base, c) ==> b !in s.carved
  {
    hide MemoryOk, CutFrom, BlockSize, BlocksPerPage, BulkRoom, PageRun, PageBlocks;
    PageIsCut(base, c);
    var blocks := map b | b in PageBlocks(base, c) :: c;
    CutKeepsMemory(s, CarvePage(s, t, c, base), blocks, base, 1);
    assert forall b :: b in PageBlocks(base, c) ==> b in blocks.Keys;
  }

  lemma CarvePageKeepsInv(s: State, g: Aux, t: Tid, c: nat, base: nat)
    requires Inv(s, g) && PcOf(s, t).Idle? && AllocMag(s, t, c) == []
    requires c < NUM_CLASSES && BlocksPerPage(c) > 1 && FreshRun(s, base, 1)
    ensures Inv(CarvePage(s, t, c, base), AuxCarve(s, g, t, c, base))
  {
    hide BlocksIn, NodesOk, ThreadsOk, SizesOk, Framed, ThreadOk, MemoryOk, StacksOk;
    hide BlockSize, BlocksPerPage, BulkRoom, Put, FreshRun, PageBlocks;
    var s', g' := CarvePage(s, t, c, base), AuxCarve(s, g, t, c, base);
    Bounds(s, g, t, c);
    CarvePageMemory(s, t, c, base);
    CarveKeepsBlocks(s, g, t, c, base);
    CarveFramed(s, g, t, c, base);
    CarveThread(s, g, g', t, c, base);
    CarveSizes(s, t, c, base);
    CarveStep(s, g, s', g', t);
  }

  ghost function AuxSingle(g: Aux, base: nat): Aux {
    g.(place := Put(g.place, [base], Live))
  }

  lemma SingleKeepsBlocks(s: State, g: Aux, c: nat, base: nat)
    requires BlocksOk(s, g) && base !in s.carved
    ensures BlocksOk(CarveSingle(s, c, base), AuxSingle(g, base))
  {
    hide Fresh, Placed, PagesForBlock;
    FreshKeepsPlaced(s.box, g.place, Live, [base]);
  }

  lemma SingleFramed(s: State, g: Aux, t: Tid, c: nat, base: nat)
    requires NodesOk(s, g)
    ensures Framed(s, g, CarveSingle(s, c, base), AuxSingle(g, base), t)
  {
    hide NodeOk, OwnerOk, PagesForBlock, Put;
    var s', g' := CarveSingle(s, c, base), AuxSingle(g, base);
    forall n | n in s.nodes
      ensures NodeFramed(s, g, s', g', t, n)
    {
      assert NodeMag(s', n) == NodeMag(s, n);
    }
  }

  lemma SingleThread(s: State, g: Aux, g': Aux, t: Tid, c: nat, base: nat)
    requires ThreadOk(s, g, t) && PcOf(s, t).Idle?
    ensures ThreadOk(CarveSingle(s, c, base), g', t)
  {
    hide PagesForBlock;
    var s' := CarveSingle(s, c, base);
    assert PcOf(s', t).Idle?;
    forall d: nat
      ensures |At(s'.box, InHand(t, d))| == 0
    {
      assert |At(s.box, InHand(t, d))| == 0;
    }
  }

  lemma SingleSizes(s: State, c: nat, base: nat)
    requires SizesOk(s)
    ensures SizesOk(CarveSingle(s, c, base))
  {
    hide NoRoomOk, PagesForBlock;
    var s' := CarveSingle(s, c, base);
    forall u: Tid, d: nat
      ensures |AllocMag(s', u, d)| <= MAGAZINE_CAPACITY && |FreeMag(s', u, d)| <= MAGAZINE_CAPACITY
    {
      assert |AllocMag(s, u, d)| <= MAGAZINE_CAPACITY && |FreeMag(s, u, d)| <= MAGAZINE_CAPACITY;
    }
    forall n | n !in s'.nodes
      ensures NodeMag(s', n) == []
    {
      assert NodeMag(s, n) == [];
    }
    SizesStep(s, s');
  }

  lemma SingleMemory(s: State, c: nat, base: nat)
    requires MemoryOk(s) && c < NUM_CLASSES && FreshRun(s, base, PagesForBlock(c))
    ensures MemoryOk(CarveSingle(s, c, base))
    ensures base !in s.carved
  {
    hide MemoryOk, CutFrom, BlockSize, PagesForBlock, PageRun;
    SingleIsCut(base, c);
    assert s.carved[base := c] == s.carved + map[base := c];
    CutKeepsMemory(s, CarveSingle(s, c, base), map[base := c], base, PagesForBlock(c));
    assert base in map[base := c].Keys;
  }

  lemma CarveSingleKeepsInv(s: State, g: Aux, t: Tid, c: nat, base: nat)
    requires Inv(s, g) && PcOf(s, t).Idle? && c < NUM_CLASSES && FreshRun(s, base, PagesForBlock(c))
    ensures Inv(CarveSingle(s, c, base), AuxSingle(g, base))
  {
    hide BlocksIn, NodesOk, ThreadsOk, SizesOk, Framed, ThreadOk, MemoryOk, StacksOk, PagesForBlock, Put, FreshRun;
    var s', g' := CarveSingle(s, c, base), AuxSingle(g, base);
    Bounds(s, g, t, c);
    SingleMemory(s, c, base);
    SingleKeepsBlocks(s, g, c, base);
    SingleFramed(s, g, t, c, base);
    SingleThread(s, g, g', t, c, base);
    SingleSizes(s, c, base);
    CarveStep(s, g, s', g', t);
  }

  // ------------------------------------------------------------------
  // Every step keeps the invariant
  // ------------------------------------------------------------------

  ghost function AuxMiss(s: State, g: Aux, t: Tid, c: nat, choice: Choice): Aux {
    if choice.BulkPage? then AuxCarve(Goto(s, t, Idle), g, t, c, choice.base)
    else if choice.SingleRun? then AuxSingle(g, choice.base)
    else g
  }

  ghost function AuxGo(s: State, g: Aux, t: Tid, choice: Choice): Aux {
    match PcOf(s, t)
    case TryLocal(c) =>
      if AllocMag(s, t, c) == [] && FreeMag(s, t, c) != [] then g.(place :=
          Renamed(g.place, InFree(t, c), InAlloc(t, c)))
      else AuxTake(s, g, t, c)
    case TakeSwapped(c) => AuxTake(s, g, t, c)
    case TakePopped(c) => AuxTake(s, g, t, c)
    case PopCas(c, cur, nxt) => if choice.Proceed? && FullHead(s, c) == cur then AuxPop(g, t, c, cur) else g
    case Exchange(c, node) => g.(place := Renamed(g.place, InNode(node), InAlloc(t, c)))
    case EmptyCas(c, node, cur) => if choice.Proceed? && EmptyHead(s, c) == cur then AuxPushEmpty(g, c, node) else g
    case Miss(c) => AuxMiss(s, g, t, c, choice)
    case TryPut(c) => if |FreeMag(s, t, c)| < MAGAZINE_CAPACITY then AuxPut(s, g, t, c) else g
    case NeedNode(c) => if choice.FreshNode? then AuxNode(g, t, c, choice.node) else AuxPut(s, g, t, c)
    case Fill(c, node) => g.(place := Renamed(g.place, InFree(t, c), InNode(node)))
    case FullCas(c, node, cur) => if choice.Proceed? && FullHead(s, c) == cur then AuxPushFull(g, c, node) else g
    case PutLocal(c) => AuxPut(s, g, t, c)
    case _ => g
  }

  ghost function AuxStep(s: State, g: Aux, step: Step): Aux {
    match step
    case Go(t, choice) => AuxGo(s, g, t, choice)
    case Free(t, i) =>
      if i < |LiveBlocks(s)| && LiveBlocks(s)[i] in s.carved then
        g.(place := g.place[LiveBlocks(s)[i] := InHand(t, s.carved[LiveBlocks(s)[i]])])
      else g
    case _ => g
  }

  /** Reading the head of the full stack: a null or a node that is on it. */
  lemma HeadWasOnFull(s: State, g: Aux, c: nat)
    requires StacksOk(s, g)
    ensures FullHead(s, c) != NULL ==> WasOnFull(g, FullHead(s, c), c)
  {
    var stack := FullOf(g, c);
    assert StackOk(s.next, FullHead(s, c), stack, g, OnFull, c);
    if FullHead(s, c) != NULL {
      assert stack[0] in stack;
    }
  }

  // Steps whose only effect is the program counter

  lemma MallocKeepsInv(s: State, g: Aux, t: Tid, c: nat)
    requires Inv(s, g) && PcOf(s, t).Idle? && c < NUM_CLASSES
    ensures Inv(Goto(s, t, TryLocal(c)), g)
  {
    hide BlocksIn, StacksOk, NodesOk, SizesOk, MemoryOk;
    assert ThreadOk(s, g, t);
    GotoKeepsInv(s, g, t, TryLocal(c));
  }

  lemma NothingLocalKeepsInv(s: State, g: Aux, t: Tid, c: nat)
    requires Inv(s, g) && PcOf(s, t) == TryLocal(c) && BothEmpty(s, t, c)
    ensures Inv(GoStep(s, t, Proceed), g)
  {
    hide BlocksIn, StacksOk, NodesOk, SizesOk, MemoryOk;
    assert ThreadOk(s, g, t);
    GotoKeepsInv(s, g, t, PopLoad(c));
  }

  lemma PopLoadKeepsInv(s: State, g: Aux, t: Tid, c: nat, choice: Choice)
    requires Inv(s, g) && GoEnabled(s, t, choice)
    requires PcOf(s, t) == PopLoad(c)
          || (PcOf(s, t).PopCas? && PcOf(s, t).c == c && !(choice.Proceed? && FullHead(s, c) == PcOf(s, t).cur))
    ensures Inv(GoStep(s, t, choice), g)
  {
    hide Inv, GoStep, WasOnFull;
    LoadStep(s, t, c, choice);
    PopLoadPoint(s, g, t, c);
    GotoKeepsInv(s, g, t, AfterPopLoad(c, FullHead(s, c)));
  }

  lemma LoadStep(s: State, t: Tid, c: nat, choice: Choice)
    requires GoEnabled(s, t, choice)
    requires PcOf(s, t) == PopLoad(c)
          || (PcOf(s, t).PopCas? && PcOf(s, t).c == c && !(choice.Proceed? && FullHead(s, c) == PcOf(s, t).cur))
    ensures GoStep(s, t, choice) == Goto(s, t, AfterPopLoad(c, FullHead(s, c)))
  {
    hide GoStep, AfterPopLoad;
    GoesPop(s, t, choice);
  }

  lemma PopLoadPoint(s: State, g: Aux, t: Tid, c: nat)
    requires Inv(s, g) && (PcOf(s, t).PopLoad? || PcOf(s, t).PopCas?) && PcOf(s, t).c == c
    ensures ThreadOk(Goto(s, t, AfterPopLoad(c, FullHead(s, c))), g, t)
  {
    hide BlocksIn, NodesOk, SizesOk, MemoryOk, WasOnFull;
    HeadWasOnFull(s, g, c);
    hide StacksOk;
    assert ThreadOk(s, g, t);
  }

  lemma PopNextKeepsInv(s: State, g: Aux, t: Tid, c: nat, cur: Ptr)
    requires Inv(s, g) && PcOf(s, t) == PopNext(c, cur)
    ensures Inv(GoStep(s, t, Proceed), g)
  {
    hide BlocksIn, StacksOk, NodesOk, SizesOk, MemoryOk;
    assert ThreadOk(s, g, t);
    GotoKeepsInv(s, g, t, PopCas(c, cur, Next(s, cur)));
  }

  lemma EmptyLoadKeepsInv(s: State, g: Aux, t: Tid, choice: Choice)
    requires Inv(s, g) && GoEnabled(s, t, choice)
    requires PcOf(s, t).EmptyLoad? || (PcOf(s, t).EmptyCas? && !(choice.Proceed?
             && EmptyHead(s, PcOf(s, t).c) == PcOf(s, t).cur))
    ensures Inv(GoStep(s, t, choice), g)
  {
    hide BlocksIn, StacksOk, NodesOk, SizesOk, MemoryOk;
    assert ThreadOk(s, g, t);
    GotoKeepsInv(s, g, t, EmptyLink(PcOf(s, t).c, PcOf(s, t).node, EmptyHead(s, PcOf(s, t).c)));
  }

  lemma FullLoadKeepsInv(s: State, g: Aux, t: Tid, choice: Choice)
    requires Inv(s, g) && GoEnabled(s, t, choice)
    requires PcOf(s, t).FullLoad? || (PcOf(s, t).FullCas? && !(choice.Proceed?
             && FullHead(s, PcOf(s, t).c) == PcOf(s, t).cur))
    ensures Inv(GoStep(s, t, choice), g)
  {
    hide BlocksIn, StacksOk, NodesOk, SizesOk, MemoryOk;
    assert ThreadOk(s, g, t);
    GotoKeepsInv(s, g, t, FullLink(PcOf(s, t).c, PcOf(s, t).node, FullHead(s, PcOf(s, t).c)));
  }

  lemma FreeMagFullKeepsInv(s: State, g: Aux, t: Tid, c: nat)
    requires Inv(s, g) && PcOf(s, t) == TryPut(c) && |FreeMag(s, t, c)| >= MAGAZINE_CAPACITY
    ensures Inv(GoStep(s, t, Proceed), g)
  {
    Bounds(s, g, t, c);
    hide BlocksIn, StacksOk, NodesOk, SizesOk, MemoryOk;
    GotoKeepsInv(s, g, t, NeedNode(c));
  }

  lemma MissToIdle(s: State, g: Aux, t: Tid, c: nat)
    requires Inv(s, g) && PcOf(s, t) == Miss(c)
    ensures Inv(Goto(s, t, Idle), g) && c < NUM_CLASSES && AllocMag(Goto(s, t, Idle), t, c) == []
  {
    hide BlocksIn, StacksOk, NodesOk, SizesOk, MemoryOk;
    assert ThreadOk(s, g, t);
    GotoKeepsInv(s, g, t, Idle);
  }

  lemma MissKeepsInv(s: State, g: Aux, t: Tid, c: nat, choice: Choice)
    requires Inv(s, g) && PcOf(s, t) == Miss(c) && GoEnabled(s, t, choice)
    ensures Inv(GoStep(s, t, choice), AuxMiss(s, g, t, c, choice))
  {
    hide Inv, BlocksPerPage, PagesForBlock, PageRun, CarvePage, CarveSingle, AuxCarve;
    MissToIdle(s, g, t, c);
    var s1 := Goto(s, t, Idle);
    assert s1.pages == s.pages && PcOf(s1, t).Idle?;
    if choice.BulkPage? {
      CarvePageKeepsInv(s1, g, t, c, choice.base);
    } else if choice.SingleRun? {
      CarveSingleKeepsInv(s1, g, t, c, choice.base);
    }
  }

  lemma TakeFrom(s: State, g: Aux, t: Tid)
    requires Inv(s, g) && (PcOf(s, t).TakeSwapped? || PcOf(s, t).TakePopped?)
    ensures AllocMag(s, t, PcOf(s, t).c) != []
  {
    assert ThreadOk(s, g, t);
  }

  /** Any step of one thread. */
  lemma GoKeepsInv(s: State, g: Aux, t: Tid, choice: Choice)
    requires Inv(s, g) && GoEnabled(s, t, choice)
    ensures Inv(GoStep(s, t, choice), AuxGo(s, g, t, choice))
  {
    hide Inv, AuxTake, AuxPut, AuxPop, AuxPushFull, AuxPushEmpty, AuxNode, AuxMiss, Renamed;
    match PcOf(s, t)
    case TryLocal(c) =>
      if AllocMag(s, t, c) != [] {
        TakeKeepsInv(s, g, t, c, PopLoad(c));
      } else if FreeMag(s, t, c) != [] {
        SwapKeepsInv(s, g, t, c);
      } else {
        NothingLocalKeepsInv(s, g, t, c);
        NothingTaken(s, g, t, c);
      }
    case TakeSwapped(c) =>
      TakeFrom(s, g, t);
      TakeKeepsInv(s, g, t, c, PopLoad(c));
    case TakePopped(c) =>
      TakeFrom(s, g, t);
      TakeKeepsInv(s, g, t, c, Miss(c));
    case PopLoad(c) => PopLoadKeepsInv(s, g, t, c, choice);
    case PopNext(c, cur) => PopNextKeepsInv(s, g, t, c, cur);
    case PopCas(c, cur, nxt) =>
      if choice.Proceed? && FullHead(s, c) == cur {
        PopKeepsInv(s, g, t, c, cur, nxt);
      } else {
        PopLoadKeepsInv(s, g, t, c, choice);
      }
    case Exchange(c, node) => ExchangeKeepsInv(s, g, t, c, node);
    case EmptyLoad(_, _) => EmptyLoadKeepsInv(s, g, t, choice);
    case EmptyLink(_, _, _) => LinkKeepsInv(s, g, t);
    case EmptyCas(c, node, cur) =>
      if choice.Proceed? && EmptyHead(s, c) == cur {
        PushEmptyKeepsInv(s, g, t, c, node, cur);
      } else {
        EmptyLoadKeepsInv(s, g, t, choice);
      }
    case Miss(c) => MissKeepsInv(s, g, t, c, choice);
    case TryPut(c) =>
      if |FreeMag(s, t, c)| < MAGAZINE_CAPACITY {
        PutKeepsInv(s, g, t, c);
      } else {
        FreeMagFullKeepsInv(s, g, t, c);
      }
    case NeedNode(c) =>
      if choice.FreshNode? {
        NewNodeKeepsInv(s, g, t, c, choice.node);
      } else {
        PutKeepsInv(s, g, t, c);
      }
    case Fill(c, node) => FillKeepsInv(s, g, t, c, node);
    case FullLoad(_, _) => FullLoadKeepsInv(s, g, t, choice);
    case FullLink(_, _, _) => LinkKeepsInv(s, g, t);
    case FullCas(c, node, cur) =>
      if choice.Proceed? && FullHead(s, c) == cur {
        PushFullKeepsInv(s, g, t, c, node, cur);
      } else {
        FullLoadKeepsInv(s, g, t, choice);
      }
    case PutLocal(c) => PutKeepsInv(s, g, t, c);
  }

  lemma NothingTaken(s: State, g: Aux, t: Tid, c: nat)
    requires AllocMag(s, t, c) == []
    ensures AuxTake(s, g, t, c) == g
  {
  }

  lemma LargeFramed(s: State, g: Aux, s': State, t: Tid)
    requires NodesOk(s, g) && ThreadOk(s, g, t) && s' == s.(pages := s'.pages, large := s'.large)
    ensures Framed(s, g, s', g, t) && ThreadOk(s', g, t)
  {
    hide NodeOk, OwnerOk;
  }

  lemma LargeStepKeepsInv(s: State, g: Aux, s': State)
    requires Inv(s, g) && MemoryOk(s') && s' == s.(pages := s'.pages, large := s'.large)
    ensures Inv(s', g)
  {
    hide BlocksIn, NodesOk, ThreadsOk, SizesOk, Framed, ThreadOk, MemoryOk, StacksOk;
    Bounds(s, g, 0, 0);
    LargeFramed(s, g, s', 0);
    SizesFrame(s, s');
    CarveStep(s, g, s', g, 0);
  }

  /** Main lemma: every step keeps the invariant. */
  lemma StepKeepsInv(s: State, g: Aux, step: Step)
    requires Inv(s, g) && Enabled(s, step)
    ensures Inv(Apply(s, step), AuxStep(s, g, step))
  {
    hide Inv, PageRun, GoStep, AuxGo;
    match step
    case Malloc(t, c) => MallocKeepsInv(s, g, t, c);
    case Free(t, i) => FreeKeepsInv(s, g, t, i, s.carved[LiveBlocks(s)[i]]);
    case Go(t, choice) => GoKeepsInv(s, g, t, choice);
    case MapLarge(base, count) =>
      MemoryOf(s, g);
      MapLargeKeepsMemory(s, base, count);
      LargeStepKeepsInv(s, g, Apply(s, step));
    case UnmapLarge(base) =>
      MemoryOf(s, g);
      UnmapLargeKeepsMemory(s, base);
      LargeStepKeepsInv(s, g, Apply(s, step));
  }

  lemma MemoryOf(s: State, g: Aux)
    requires Inv(s, g)
    ensures MemoryOk(s)
  {
  }

  lemma InitialInv()
    ensures Inv(INITIAL, AUX0)
  {
    hide Overflow;
    forall c: nat
      ensures NoRoomOk([], 0, c)
    {
    }
  }
}
