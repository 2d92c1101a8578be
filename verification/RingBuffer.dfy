/** The single-producer/single-consumer ring of the AMO crate.

    The machine steps one producer and one consumer at the granularity of the
    atomic loads and stores of `try_push` and `try_pop`, in any interleaving.
    The shadow cells are private to one side, so reading or setting a shadow is
    merged with the neighbouring step of the same side.
 */
module RingBuffer {
  import opened Bits
  import opened Common

  /** `try_push`: where the producer stands, with its local variables. */
  datatype Producer<E> =
    | PushIdle
    | PushCheckShadow(entry: E, head: nat)
    | PushLoadTail(entry: E, head: nat, next: nat)
    | PushWriteSlot(entry: E, head: nat, next: nat)
    | PushStoreHead(entry: E, head: nat, next: nat)

  /** `try_pop`: where the consumer stands, with its local variables. */
  datatype Consumer<E> =
    | PopIdle
    | PopCheckShadow(tail: nat)
    | PopLoadHead(tail: nat)
    | PopReadSlot(tail: nat)
    | PopStoreTail(tail: nat, entry: E)

  /** The ring of capacity 2^`log`.  `pushed` and `popped` are histories: the
      entries of completed pushes and pops, oldest first. */
  datatype State<E> = State(
    log: nat,
    head: nat, tail: nat, shadowTail: nat, shadowHead: nat,
    buffer: seq<E>,
    producer: Producer<E>, consumer: Consumer<E>,
    pushed: seq<E>, popped: seq<E>)
  {
    function Capacity(): nat { Pow2(log) }

    /** The queue the ring stands for. */
    function Queue(): seq<E>
      requires |popped| <= |pushed|
    {
      pushed[|popped|..]
    }
  }

  /** Any element may lie in the zeroed buffer. */
  predicate Initial<E(==)>(s: State<E>) {
    && s.head == s.tail == s.shadowTail == s.shadowHead == 0
    && |s.buffer| == s.Capacity()
    && s.producer == PushIdle && s.consumer == PopIdle
    && s.pushed == [] && s.popped == []
  }

  function Mask<E>(s: State<E>, i: nat): nat {
    And(i, s.Capacity() - 1)
  }

  datatype Step<E> = StartPush(entry: E) | Produce | StartPop | Consume

  predicate Enabled<E(==)>(s: State<E>, step: Step<E>) {
    match step
    case StartPush(_) => s.producer.PushIdle?
    case Produce => !s.producer.PushIdle? && (s.producer.PushWriteSlot? ==> s.producer.head < |s.buffer|)
    case StartPop => s.consumer.PopIdle?
    case Consume => !s.consumer.PopIdle? && (s.consumer.PopReadSlot? ==> s.consumer.tail < |s.buffer|)
  }

  function Apply<E(==)>(s: State<E>, step: Step<E>): State<E>
    requires Enabled(s, step)
  {
    match step
    case StartPush(entry) => s.(producer := PushCheckShadow(entry, s.head))
    case StartPop => s.(consumer := PopCheckShadow(s.tail))
    case Produce => ProducerStep(s)
    case Consume => ConsumerStep(s)
  }

  function ProducerStep<E(==)>(s: State<E>): State<E>
    requires Enabled(s, Produce)
  {
    match s.producer
    case PushCheckShadow(entry, head) =>
      var next := Mask(s, head + 1);
      if next == s.shadowTail then s.(producer := PushLoadTail(entry, head, next))
      else s.(producer := PushWriteSlot(entry, head, next))
    case PushLoadTail(entry, head, next) =>
      s.(shadowTail := s.tail,
         producer := if next == s.tail then PushIdle else PushWriteSlot(entry, head, next))
    case PushWriteSlot(entry, head, next) =>
      s.(buffer := s.buffer[head := entry], producer := PushStoreHead(entry, head, next))
    case PushStoreHead(entry, head, next) =>
      s.(head := next, producer := PushIdle, pushed := s.pushed + [entry])
  }

  function ConsumerStep<E(==)>(s: State<E>): State<E>
    requires Enabled(s, Consume)
  {
    match s.consumer
    case PopCheckShadow(tail) =>
      if tail == s.shadowHead then s.(consumer := PopLoadHead(tail))
      else s.(consumer := PopReadSlot(tail))
    case PopLoadHead(tail) =>
      s.(shadowHead := s.head,
         consumer := if tail == s.head then PopIdle else PopReadSlot(tail))
    case PopReadSlot(tail) =>
      s.(consumer := PopStoreTail(tail, s.buffer[tail]))
    case PopStoreTail(tail, entry) =>
      s.(tail := Mask(s, tail + 1), consumer := PopIdle, popped := s.popped + [entry])
  }

  // ------------------------------------------------------------------
  // The invariant, over unbounded counters
  // ------------------------------------------------------------------

  /** `st` and `sh` are the unbounded values of the two shadow indices.  They
      satisfy st <= popped <= sh <= pushed <= st + capacity - 1. */
  ghost predicate InvAt<E>(s: State<E>, st: nat, sh: nat) {
    var n := s.Capacity();
    var h, t := |s.pushed|, |s.popped|;
    && |s.buffer| == n
    && st <= t <= sh <= h <= st + n - 1
    && s.head == h % n && s.tail == t % n
    && s.shadowTail == st % n && s.shadowHead == sh % n
    && s.popped == s.pushed[..t]
    && (forall i :: t <= i < h ==> s.buffer[i % n] == s.pushed[i])
    && ProducerInv(s, st)
    && ConsumerInv(s, sh)
  }

  ghost predicate ProducerInv<E>(s: State<E>, st: nat) {
    var n, h := s.Capacity(), |s.pushed|;
    match s.producer
    case PushIdle => true
    case PushCheckShadow(_, head) => head == h % n
    case PushLoadTail(_, head, next) => head == h % n && next == (h + 1) % n
    case PushWriteSlot(_, head, next) => head == h % n && next == (h + 1) % n && h < st + n - 1
    case PushStoreHead(entry, head, next) =>
      && head == h % n && next == (h + 1) % n && h < st + n - 1
      && head < |s.buffer| && s.buffer[head] == entry
  }

  ghost predicate ConsumerInv<E>(s: State<E>, sh: nat) {
    var n, t := s.Capacity(), |s.popped|;
    match s.consumer
    case PopIdle => true
    case PopCheckShadow(tail) => tail == t % n
    case PopLoadHead(tail) => tail == t % n
    case PopReadSlot(tail) => tail == t % n && t < sh
    case PopStoreTail(tail, entry) =>
      tail == t % n && t < sh && t < |s.pushed| && entry == s.pushed[t]
  }

  ghost predicate Inv<E>(s: State<E>) {
    exists st: nat, sh: nat :: InvAt(s, st, sh)
  }

  // ------------------------------------------------------------------
  // Modular arithmetic on counters
  // ------------------------------------------------------------------

  /** Counters less than one lap apart name different slots. */
  lemma DistinctSlots(i: nat, j: nat, n: nat)
    requires n > 0 && i < j < i + n
    ensures i % n != j % n
  {
    if i % n == j % n {
      DivMod(i, n);
      DivMod(j, n);
      Distribute(j / n, i / n, n);
      if j / n > i / n {
        MulAtLeast(j / n - i / n, n);
      }
    }
  }

  lemma SameSlotAfterLap(i: nat, n: nat)
    requires n > 0
    ensures (i + n) % n == i % n
  {
    DivMod(i, n);
    Distribute(i / n + 1, 1, n);
    ModIs(i + n, n, i / n + 1, i % n);
  }

  /** Masking a masked index plus one steps the counter. */
  lemma MaskSteps<E>(s: State<E>, i: nat)
    ensures Mask(s, i % s.Capacity() + 1) == (i + 1) % s.Capacity()
  {
    var n := s.Capacity();
    MaskIsMod(i % n + 1, s.log);
    DivMod(i, n);
    if i % n + 1 == n {
      Distribute(i / n + 1, 1, n);
      ModIs(i + 1, n, i / n + 1, 0);
      ModIs(n, n, 1, 0);
    } else {
      ModIs(i + 1, n, i / n, i % n + 1);
      ModIs(i % n + 1, n, 0, i % n + 1);
    }
  }

  /** The producer's "full" test on masked indices compares the counters. */
  lemma FullTest(h: nat, t: nat, n: nat)
    requires n > 0 && t <= h <= t + n - 1
    ensures (h + 1) % n == t % n <==> h == t + n - 1
  {
    if h == t + n - 1 {
      SameSlotAfterLap(t, n);
    } else {
      DistinctSlots(t, h + 1, n);
    }
  }

  /** The consumer's "empty" test on masked indices compares the counters. */
  lemma EmptyTest(t: nat, h: nat, n: nat)
    requires n > 0 && t <= h <= t + n - 1
    ensures t % n == h % n <==> t == h
  {
    if t < h {
      DistinctSlots(t, h, n);
    }
  }

  // ------------------------------------------------------------------
  // Every step keeps the invariant
  // ------------------------------------------------------------------

  lemma InitialInv<E>(s: State<E>)
    requires Initial(s)
    ensures InvAt(s, 0, 0)
  {
    ModIs(0, s.Capacity(), 0, 0);
  }

  lemma ProducerCheckKeeps<E>(s: State<E>, st: nat, sh: nat)
    requires InvAt(s, st, sh) && s.producer.PushCheckShadow?
    ensures InvAt(ProducerStep(s), st, sh)
  {
    MaskSteps(s, |s.pushed|);
    FullTest(|s.pushed|, st, s.Capacity());
  }

  lemma ProducerLoadKeeps<E>(s: State<E>, st: nat, sh: nat)
    requires InvAt(s, st, sh) && s.producer.PushLoadTail?
    ensures InvAt(ProducerStep(s), |s.popped|, sh)
  {
    FullTest(|s.pushed|, |s.popped|, s.Capacity());
  }

  lemma ProducerWriteKeeps<E>(s: State<E>, st: nat, sh: nat)
    requires InvAt(s, st, sh) && s.producer.PushWriteSlot?
    ensures Enabled(s, Produce)
    ensures InvAt(ProducerStep(s), st, sh)
  {
    var n, h := s.Capacity(), |s.pushed|;
    var s' := ProducerStep(s);
    forall i | |s.popped| <= i < h
      ensures s'.buffer[i % n] == s.pushed[i]
    {
      DistinctSlots(i, h, n);
    }
  }

  lemma ProducerStoreKeeps<E>(s: State<E>, st: nat, sh: nat)
    requires InvAt(s, st, sh) && s.producer.PushStoreHead?
    ensures InvAt(ProducerStep(s), st, sh)
  {
  }

  lemma ConsumerKeeps<E>(s: State<E>, st: nat, sh: nat)
    requires InvAt(s, st, sh) && !s.consumer.PopIdle?
    ensures Enabled(s, Consume)
    ensures InvAt(ConsumerStep(s), st, if s.consumer.PopLoadHead? then |s.pushed| else sh)
  {
    var n, t := s.Capacity(), |s.popped|;
    match s.consumer
    case PopCheckShadow(_) => EmptyTest(t, sh, n);
    case PopLoadHead(_) => EmptyTest(t, |s.pushed|, n);
    case PopReadSlot(_) =>
    case PopStoreTail(_, entry) =>
      MaskSteps(s, t);
      assert s.pushed[..t] + [entry] == s.pushed[..t + 1];
  }

  lemma StepKeepsInv<E>(s: State<E>, step: Step<E>)
    requires Inv(s) && Enabled(s, step)
    ensures Inv(Apply(s, step))
  {
    var st: nat, sh: nat :| InvAt(s, st, sh);
    match step
    case StartPush(_) => assert InvAt(Apply(s, step), st, sh);
    case StartPop => assert InvAt(Apply(s, step), st, sh);
    case Consume => ConsumerKeeps(s, st, sh);
    case Produce =>
      match s.producer
      case PushCheckShadow(_, _) => ProducerCheckKeeps(s, st, sh);
      case PushLoadTail(_, _, _) => ProducerLoadKeeps(s, st, sh);
      case PushWriteSlot(_, _, _) => ProducerWriteKeeps(s, st, sh);
      case PushStoreHead(_, _, _) => ProducerStoreKeeps(s, st, sh);
  }

  // ------------------------------------------------------------------
  // Whole runs
  // ------------------------------------------------------------------

  ghost predicate Reaches<E(!new)>(s: State<E>, steps: seq<Step<E>>, s': State<E>)
    decreases |steps|
  {
    if steps == [] then s == s'
    else Enabled(s, steps[0]) && Reaches(Apply(s, steps[0]), steps[1..], s')
  }

  lemma {:induction false} RunKeepsInv<E(!new)>(s: State<E>, steps: seq<Step<E>>, s': State<E>)
    requires Inv(s) && Reaches(s, steps, s')
    ensures Inv(s') && s'.log == s.log
    decreases |steps|
  {
    if steps != [] {
      StepKeepsInv(s, steps[0]);
      RunKeepsInv(Apply(s, steps[0]), steps[1..], s');
    }
  }

  /** Main result: in every interleaving, what was popped is a prefix of what
      was pushed, in order, and at most capacity - 1 entries are queued. */
  lemma PoppedIsPrefixOfPushed<E(!new)>(s: State<E>, steps: seq<Step<E>>, s': State<E>)
    requires Initial(s) && Reaches(s, steps, s')
    ensures s'.popped <= s'.pushed
    ensures s'.pushed == s'.popped + s'.Queue()
    ensures |s'.Queue()| <= s.Capacity() - 1
  {
    InitialInv(s);
    RunKeepsInv(s, steps, s');
    var st: nat, sh: nat :| InvAt(s', st, sh);
  }

  /** No step is ever blocked by an index out of bounds. */
  lemma NeverOutOfBounds<E(!new)>(s: State<E>, steps: seq<Step<E>>, s': State<E>)
    requires Initial(s) && Reaches(s, steps, s')
    ensures !s'.producer.PushIdle? ==> Enabled(s', Produce)
    ensures !s'.consumer.PopIdle? ==> Enabled(s', Consume)
  {
    InitialInv(s);
    RunKeepsInv(s, steps, s');
    var st: nat, sh: nat :| InvAt(s', st, sh);
  }

  /** While the producer is about to write a slot or to publish it, and the
      consumer is about to read one or to release it, the slots differ. */
  lemma SidesNeverShareASlot<E(!new)>(s: State<E>, steps: seq<Step<E>>, s': State<E>)
    requires Initial(s) && Reaches(s, steps, s')
    requires s'.producer.PushWriteSlot? || s'.producer.PushStoreHead?
    requires s'.consumer.PopReadSlot? || s'.consumer.PopStoreTail?
    ensures s'.producer.head != s'.consumer.tail
  {
    InitialInv(s);
    RunKeepsInv(s, steps, s');
    var st: nat, sh: nat :| InvAt(s', st, sh);
    DistinctSlots(|s'.popped|, |s'.pushed|, s'.Capacity());
  }

  /** What one step may do to the queue.  A push keeps its entry until it ends, and
      ends by appending it or on a queue of capacity - 1 entries; a pop ends by
      removing and returning the oldest entry or on an empty queue; nothing else
      changes the queue. */
  ghost predicate QueueStep<E>(s: State<E>, step: Step<E>)
    requires Enabled(s, step)
  {
    var s' := Apply(s, step);
    && |s.popped| <= |s.pushed| && |s'.popped| <= |s'.pushed|
    && var q, q' := s.Queue(), s'.Queue();
    match step
    case StartPush(entry) => q' == q && !s'.producer.PushIdle? && s'.producer.entry == entry
    case StartPop => q' == q && !s'.consumer.PopIdle?
    case Produce =>
      if !s'.producer.PushIdle? then q' == q && s'.producer.entry == s.producer.entry
      else if |q| == s.Capacity() - 1 then q' == q
      else q' == q + [s.producer.entry]
    case Consume =>
      if !s'.consumer.PopIdle? then q' == q
      else if q == [] then q' == q
      else q' == q[1..] && s'.popped == s.popped + [q[0]]
  }

  lemma ProduceIsQueueStep<E>(s: State<E>, st: nat, sh: nat)
    requires InvAt(s, st, sh) && Enabled(s, Produce)
    ensures QueueStep(s, Produce)
  {
    FullTest(|s.pushed|, |s.popped|, s.Capacity());
  }

  lemma ConsumeIsQueueStep<E>(s: State<E>, st: nat, sh: nat)
    requires InvAt(s, st, sh) && Enabled(s, Consume)
    ensures QueueStep(s, Consume)
  {
    EmptyTest(|s.popped|, |s.pushed|, s.Capacity());
  }

  /** Main result: one step of the ring is one step of a bounded FIFO queue. */
  lemma StepRefinesQueue<E(!new)>(s: State<E>, steps: seq<Step<E>>, s': State<E>, step: Step<E>)
    requires Initial(s) && Reaches(s, steps, s') && Enabled(s', step)
    ensures QueueStep(s', step)
  {
    InitialInv(s);
    RunKeepsInv(s, steps, s');
    var st: nat, sh: nat :| InvAt(s', st, sh);
    match step
    case StartPush(_) =>
    case StartPop =>
    case Produce => ProduceIsQueueStep(s', st, sh);
    case Consume => ConsumeIsQueueStep(s', st, sh);
  }

  /** `len`: wrapping subtraction of the two indices, then the mask. */
  function Len<E>(s: State<E>): nat
    requires s.head < WORD && s.tail < WORD
  {
    And((s.head + WORD - s.tail) % WORD, s.Capacity() - 1)
  }

  /** Subtracting a masked index modulo the word and masking again subtracts
      the counters. */
  lemma WrappedDifference(h: nat, t: nat, log: nat)
    requires log < 64 && t <= h <= t + Pow2(log) - 1
    ensures var n := Pow2(log);
            && h % n < WORD && t % n < WORD
            && And((h % n + WORD - t % n) % WORD, n - 1) == h - t
  {
    hide Pow2, And;
    var n, m := Pow2(log), Pow2(64 - log);
    Pow2Word();
    Pow2Monotone(log, 63);
    Pow2Add(log, 64 - log);
    DivMod(h, n);
    DivMod(t, n);
    var d := h % n + WORD - t % n;
    MaskIsMod(d % WORD, log);
    ModOfMultiple(d, n, m);
    var q := t / n - h / n;
    assert d == (q + m) * n + (h - t) by {
      Distribute(t / n, h / n, n);
      Distribute(q + m, m, n);
    }
    ModIs(d, n, q + m, h - t);
  }

  lemma ModOfMultiple(d: int, n: int, m: int)
    requires n > 0 && m > 0 && n * m > 0
    ensures (d % (n * m)) % n == d % n
  {
    var w := n * m;
    DivMod(d, w);
    DivMod(d, n);
    var k := d / w;
    MulAssoc(k, m, n);
    Distribute(d / n, k * m, n);
    ModIs(d % w, n, d / n - k * m, d % n);
  }

  lemma MulAssoc(a: int, b: int, c: int)
    ensures a * (c * b) == (a * b) * c
  {
  }

  /** With no operation in flight, `len` is the number of queued entries, so
      `is_empty` and `is_full` mean what they say. */
  lemma LenIsQueueLength<E(!new)>(s: State<E>, steps: seq<Step<E>>, s': State<E>)
    requires Initial(s) && Reaches(s, steps, s')
    requires s.log < 64
    ensures |s'.popped| <= |s'.pushed| && s'.head < WORD && s'.tail < WORD
    ensures Len(s') == |s'.Queue()|
    ensures Len(s') == 0 <==> s'.Queue() == []
    ensures Len(s') == s.Capacity() - 1 <==> |s'.Queue()| == s.Capacity() - 1
  {
    InitialInv(s);
    RunKeepsInv(s, steps, s');
    var st: nat, sh: nat :| InvAt(s', st, sh);
    WrappedDifference(|s'.pushed|, |s'.popped|, s'.log);
  }

  // ------------------------------------------------------------------
  // The methods, run without interference
  // ------------------------------------------------------------------

  /** The state after a `try_push` that no consumer step interrupts. */
  ghost function AfterPush<E>(s: State<E>, entry: E): State<E> {
    var next := Mask(s, s.head + 1);
    var s1 := if next == s.shadowTail then s.(shadowTail := s.tail) else s;
    if next == s1.shadowTail || s.head >= |s.buffer| then s1
    else s1.(buffer := s.buffer[s.head := entry], head := next, pushed := s.pushed + [entry])
  }

  /** The checks of `try_push`: the shadow, then the tail if the shadow says full. */
  lemma PushChecks<E>(s: State<E>, st: nat, sh: nat, entry: E)
    requires InvAt(s, st, sh) && s.producer == PushIdle
    ensures var next := Mask(s, s.head + 1);
            var fast := next != s.shadowTail;
            var s1 := if fast then s else s.(shadowTail := s.tail);
            var st1 := if fast then st else |s.popped|;
            && (next == s1.shadowTail <==> |s.Queue()| == s.Capacity() - 1)
            && InvAt(if next == s1.shadowTail then s1
                     else s1.(producer := PushWriteSlot(entry, s.head, next)), st1, sh)
  {
    MaskSteps(s, |s.pushed|);
    FullTest(|s.pushed|, |s.popped|, s.Capacity());
    var s1 := s.(producer := PushCheckShadow(entry, s.head));
    ProducerCheckKeeps(s1, st, sh);
    var s2 := ProducerStep(s1);
    if s2.producer.PushLoadTail? {
      ProducerLoadKeeps(s2, st, sh);
    }
  }

  /** The rest of `try_push`: write the slot, publish the head. */
  lemma PushCommits<E>(s: State<E>, st: nat, sh: nat)
    requires InvAt(s, st, sh) && s.producer.PushWriteSlot?
    ensures s.producer.head < |s.buffer|
    ensures var s' := s.(buffer := s.buffer[s.producer.head := s.producer.entry], head := s.producer.next,
                         producer := PushIdle, pushed := s.pushed + [s.producer.entry]);
            InvAt(s', st, sh) && s'.Queue() == s.Queue() + [s.producer.entry]
  {
    ProducerWriteKeeps(s, st, sh);
    ProducerStoreKeeps(ProducerStep(s), st, sh);
  }

  lemma PushAlone<E>(s: State<E>, st: nat, sh: nat, entry: E)
    requires InvAt(s, st, sh) && s.producer == PushIdle
    ensures s.head < |s.buffer|
    ensures InvAt(AfterPush(s, entry), if Mask(s, s.head + 1) != s.shadowTail then st else |s.popped|, sh)
    ensures |s.Queue()| == s.Capacity() - 1 ==> AfterPush(s, entry).pushed == s.pushed
    ensures |s.Queue()| != s.Capacity() - 1 ==> AfterPush(s, entry).Queue() == s.Queue() + [entry]
  {
    PushChecks(s, st, sh, entry);
    var next := Mask(s, s.head + 1);
    var fast := next != s.shadowTail;
    var s1 := if fast then s else s.(shadowTail := s.tail);
    if next != s1.shadowTail {
      PushCommits(s1.(producer := PushWriteSlot(entry, s.head, next)), if fast then st else |s.popped|, sh);
    }
  }

  /** The state after a `try_pop` that no producer step interrupts. */
  ghost function AfterPop<E>(s: State<E>): State<E> {
    var s1 := if s.tail == s.shadowHead then s.(shadowHead := s.head) else s;
    if s.tail == s1.shadowHead || s.tail >= |s.buffer| then s1
    else s1.(tail := Mask(s, s.tail + 1), popped := s.popped + [s.buffer[s.tail]])
  }

  lemma PopChecks<E>(s: State<E>, st: nat, sh: nat)
    requires InvAt(s, st, sh) && s.consumer == PopIdle
    ensures var fast := s.tail != s.shadowHead;
            var s1 := if fast then s else s.(shadowHead := s.head);
            var sh1 := if fast then sh else |s.pushed|;
            && (s.tail == s1.shadowHead <==> s.Queue() == [])
            && InvAt(if s.tail == s1.shadowHead then s1 else s1.(consumer := PopReadSlot(s.tail)), st, sh1)
  {
    EmptyTest(|s.popped|, |s.pushed|, s.Capacity());
    EmptyTest(|s.popped|, sh, s.Capacity());
    var s1 := s.(consumer := PopCheckShadow(s.tail));
    ConsumerKeeps(s1, st, sh);
    var s2 := ConsumerStep(s1);
    if s2.consumer.PopLoadHead? {
      ConsumerKeeps(s2, st, sh);
    }
  }

  lemma PopCommits<E>(s: State<E>, st: nat, sh: nat)
    requires InvAt(s, st, sh) && s.consumer.PopReadSlot?
    ensures s.consumer.tail < |s.buffer|
    ensures var entry := s.buffer[s.consumer.tail];
            var s' := s.(tail := Mask(s, s.consumer.tail + 1), consumer := PopIdle, popped := s.popped + [entry]);
            InvAt(s', st, sh) && s.Queue() == [entry] + s'.Queue()
  {
    ConsumerKeeps(s, st, sh);
    ConsumerKeeps(ConsumerStep(s), st, sh);
  }

  lemma PopAlone<E>(s: State<E>, st: nat, sh: nat)
    requires InvAt(s, st, sh) && s.consumer == PopIdle
    ensures s.tail < |s.buffer|
    ensures InvAt(AfterPop(s), st, if s.tail != s.shadowHead then sh else |s.pushed|)
    ensures s.Queue() == [] ==> AfterPop(s).popped == s.popped
    ensures s.Queue() != [] ==> s.Queue() == [s.buffer[s.tail]] + AfterPop(s).Queue()
  {
    PopChecks(s, st, sh);
    var fast := s.tail != s.shadowHead;
    var s1 := if fast then s else s.(shadowHead := s.head);
    if s.tail != s1.shadowHead {
      PopCommits(s1.(consumer := PopReadSlot(s.tail)), st, if fast then sh else |s.pushed|);
    }
  }

  /** Up to `n` steps of the producer, until its push ends. */
  ghost function Produced<E(!new)>(s: State<E>, n: nat): State<E>
    decreases n
  {
    if n == 0 || !Enabled(s, Produce) then s else Produced(ProducerStep(s), n - 1)
  }

  ghost function Consumed<E(!new)>(s: State<E>, n: nat): State<E>
    decreases n
  {
    if n == 0 || !Enabled(s, Consume) then s else Consumed(ConsumerStep(s), n - 1)
  }

  lemma ProducesPush<E(!new)>(s: State<E>, entry: E)
    requires s.producer == PushIdle && s.head < |s.buffer|
    ensures Produced(Apply(s, StartPush(entry)), 4) == AfterPush(s, entry) && AfterPush(s, entry).producer == PushIdle
  {
    hide And, Pow2;
    var s1 := Apply(s, StartPush(entry));
    var s2 := ProducerStep(s1);
    assert Produced(s1, 4) == Produced(s2, 3);
    if s2.producer.PushLoadTail? {
      var s3 := ProducerStep(s2);
      assert Produced(s2, 3) == Produced(s3, 2);
      if s3.producer.PushWriteSlot? {
        assert Produced(s3, 2) == ProducerStep(ProducerStep(s3));
      }
    } else {
      assert Produced(s2, 3) == ProducerStep(ProducerStep(s2));
    }
  }

  lemma ConsumesPop<E(!new)>(s: State<E>)
    requires s.consumer == PopIdle && s.tail < |s.buffer|
    ensures Consumed(Apply(s, StartPop), 4) == AfterPop(s) && AfterPop(s).consumer == PopIdle
  {
    hide And, Pow2;
    var s1 := Apply(s, StartPop);
    var s2 := ConsumerStep(s1);
    assert Consumed(s1, 4) == Consumed(s2, 3);
    if s2.consumer.PopLoadHead? {
      var s3 := ConsumerStep(s2);
      assert Consumed(s2, 3) == Consumed(s3, 2);
      if s3.consumer.PopReadSlot? {
        assert Consumed(s3, 2) == ConsumerStep(ConsumerStep(s3));
      }
    } else {
      assert Consumed(s2, 3) == ConsumerStep(ConsumerStep(s2));
    }
  }

  /** In every reachable state, wherever the consumer stands: a push whose steps are
      not interrupted ends after at most four, in the state the method leaves. */
  lemma PushRunsAlone<E(!new)>(s: State<E>, steps: seq<Step<E>>, s': State<E>, entry: E)
    requires Initial(s) && Reaches(s, steps, s') && s'.producer == PushIdle
    ensures |s'.popped| <= |s'.pushed|
    ensures var s2 := Produced(Apply(s', StartPush(entry)), 4);
            && s2 == AfterPush(s', entry) && s2.producer == PushIdle && |s2.popped| <= |s2.pushed|
            && s2.Queue() == if |s'.Queue()| < s'.Capacity() - 1 then s'.Queue() + [entry] else s'.Queue()
  {
    hide Produced, Apply, AfterPush;
    InitialInv(s);
    RunKeepsInv(s, steps, s');
    var st: nat, sh: nat :| InvAt(s', st, sh);
    PushAlone(s', st, sh, entry);
    ProducesPush(s', entry);
    KeepsPopped(s', entry);
  }

  lemma KeepsPopped<E>(s: State<E>, entry: E)
    ensures AfterPush(s, entry).popped == s.popped && |AfterPush(s, entry).pushed| >= |s.pushed|
  {
    hide Mask;
  }

  lemma KeepsPushed<E>(s: State<E>)
    ensures AfterPop(s).pushed == s.pushed
    ensures |AfterPop(s).popped| == |s.popped| ==> AfterPop(s).popped == s.popped
  {
    hide Mask;
  }

  /** The same for a pop. */
  lemma PopRunsAlone<E(!new)>(s: State<E>, steps: seq<Step<E>>, s': State<E>)
    requires Initial(s) && Reaches(s, steps, s') && s'.consumer == PopIdle
    ensures |s'.popped| <= |s'.pushed|
    ensures var s2 := Consumed(Apply(s', StartPop), 4);
            && s2 == AfterPop(s') && s2.consumer == PopIdle && |s2.popped| <= |s2.pushed|
            && s2.Queue() == if s'.Queue() == [] then [] else s'.Queue()[1..]
  {
    hide Consumed, Apply, AfterPop;
    InitialInv(s);
    RunKeepsInv(s, steps, s');
    var st: nat, sh: nat :| InvAt(s', st, sh);
    PopAlone(s', st, sh);
    ConsumesPop(s');
    KeepsPushed(s');
    var sh1 := if s'.tail != s'.shadowHead then sh else |s'.pushed|;
    assert InvAt(AfterPop(s'), st, sh1);
  }

  /** `RingBuffer<CAPACITY>`.  `st`, `sh`, `pushed` and `popped` are the
      unbounded counters and histories of the protocol above. */
  class Ring<E> {
    const log: nat
    const buffer: array<E>
    var head: nat
    var tail: nat
    var shadowTail: nat
    var shadowHead: nat
    ghost var st: nat
    ghost var sh: nat
    ghost var pushed: seq<E>
    ghost var popped: seq<E>

    ghost function AsState(): State<E>
      reads this, buffer
    {
      State(log, head, tail, shadowTail, shadowHead, buffer[..], PushIdle, PopIdle, pushed, popped)
    }

    ghost predicate Valid()
      reads this, buffer
    {
      InvAt(AsState(), st, sh)
    }

    ghost function Contents(): seq<E>
      reads this, buffer
      requires Valid()
    {
      AsState().Queue()
    }

    constructor (log: nat, zero: E)
      ensures Valid() && Contents() == [] && this.log == log && fresh(buffer)
    {
      this.log := log;
      buffer := new E[Pow2(log)](_ => zero);
      head, tail, shadowTail, shadowHead := 0, 0, 0, 0;
      st, sh, pushed, popped := 0, 0, [], [];
      new;
      InitialInv(AsState());
    }

    /** `try_push`: appends, or fails and changes nothing exactly when
        capacity - 1 entries are queued. */
    method TryPush(entry: E) returns (ok: bool)
      requires Valid()
      modifies this, buffer
      ensures Valid()
      ensures ok <==> |old(Contents())| < Pow2(log) - 1
      ensures Contents() == if ok then old(Contents()) + [entry] else old(Contents())
    {
      ghost var s := AsState();
      PushAlone(s, st, sh, entry);
      var h := head;
      var next := And(h + 1, buffer.Length - 1);
      if next == shadowTail {
        shadowTail := tail;
        st := |popped|;
        if next == shadowTail {
          assert AsState() == AfterPush(s, entry);
          return false;
        }
      }
      buffer[h] := entry;
      assert buffer[..] == s.buffer[h := entry];
      head := next;
      pushed := pushed + [entry];
      assert AsState() == AfterPush(s, entry);
      ok := true;
    }

    /** `try_pop`: removes and returns the oldest entry, or fails and changes
        nothing exactly when the ring is empty. */
    method TryPop() returns (r: Option<E>)
      requires Valid()
      modifies this
      ensures Valid()
      ensures r.Some? <==> old(Contents()) != []
      ensures old(Contents()) == (if r.Some? then [r.value] else []) + Contents()
    {
      ghost var s := AsState();
      PopAlone(s, st, sh);
      var t := tail;
      if t == shadowHead {
        shadowHead := head;
        sh := |pushed|;
        if t == shadowHead {
          assert AsState() == AfterPop(s);
          return None;
        }
      }
      var entry := buffer[t];
      tail := And(t + 1, buffer.Length - 1);
      popped := popped + [entry];
      assert AsState() == AfterPop(s);
      r := Some(entry);
    }
  }
}
