/** The lock-free queue as a state machine over its atomic steps, under release/acquire memory.

    A counter is a history of messages: every store appends one, carrying the stored word and the
    set of slot accesses the storing thread knew of (what happens before the store). A load may
    return any message that is not older than one the same thread has already read, and an acquire
    load adds that message's knowledge to the reader's. Position k is the k-th store of a counter;
    the threads only ever see the stored words, which wrap at 2^64. */
module RingMachine {
  import opened Types
  import opened Counter64

  /** One access to a buffer slot, named by the position it serves. All three kinds write the slot:
      moving a shared pointer out of it nulls it. */
  datatype Event = Fill(pos: nat) | Take(pos: nat) | Reset(pos: nat)

  datatype Message = Message(word: Word, known: set<Event>)

  /** Where the producer stands in try_push. */
  datatype Producer =
    | Outside
    | Loading(frame: Frame, h: Word)
    | Filling(frame: Frame, h: Word)
    | Publishing(frame: Frame, h: Word)
    | CountingPush
    | CountingDrop

  /** Where the consumer stands in try_pop. */
  datatype Consumer =
    | Away
    | Looking(t: Word)
    | Taking(t: Word)
    | Resetting(t: Word, out: Option<Frame>)
    | Releasing(t: Word, out: Option<Frame>)

  datatype State = State(
    capacity: nat,
    buffer: seq<Option<Frame>>,
    touched: seq<set<Event>>,       // every access made to each slot so far
    headMsgs: seq<Message>,
    tailMsgs: seq<Message>,
    seenTail: nat,                  // newest tail message the producer has read
    seenHead: nat,                  // newest head message the consumer has read
    producerKnows: set<Event>,
    consumerKnows: set<Event>,
    producer: Producer,
    consumer: Consumer,
    attempts: nat,
    pushed: nat,
    dropped: nat,
    accepted: seq<Frame>,           // the frames whose store of head is done, in order
    popped: seq<Option<Frame>>,     // what the finished pops returned, in order
    raced: bool)                    // some slot access was not ordered after an earlier one

  datatype Step =
    | CallPush(frame: Frame) | LoadTail(version: nat) | FillSlot | StoreHead | BumpPushed | BumpDropped
    | CallPop | LoadHead(version: nat) | TakeSlot | ResetSlot | StoreTail
    | HearOf(version: nat)    // between two pops the consumer takes a mutex that the producer released after this store of head

  /** What must hold for the expressions of the steps to make sense. */
  ghost predicate Shape(s: State) {
    && 0 < s.capacity == |s.buffer| == |s.touched|
    && 0 < |s.headMsgs| && 0 < |s.tailMsgs|
  }

  function Head(s: State): nat requires 0 < |s.headMsgs| { |s.headMsgs| - 1 }
  function Tail(s: State): nat requires 0 < |s.tailMsgs| { |s.tailMsgs| - 1 }

  function Initial(capacity: nat): State
    requires 0 < capacity
  {
    State(capacity, seq(capacity, i => None), seq(capacity, i => {}),
          [Message(0, {})], [Message(0, {})], 0, 0, {}, {}, Outside, Away, 0, 0, 0, [], [], false)
  }

  predicate Enabled(s: State, step: Step) {
    match step
    case CallPush(_) => s.producer.Outside?
    case LoadTail(v) => s.producer.Loading? && s.seenTail <= v < |s.tailMsgs|
    case FillSlot => s.producer.Filling?
    case StoreHead => s.producer.Publishing?
    case BumpPushed => s.producer.CountingPush?
    case BumpDropped => s.producer.CountingDrop?
    case CallPop => s.consumer.Away?
    case LoadHead(v) => s.consumer.Looking? && s.seenHead <= v < |s.headMsgs|
    case TakeSlot => s.consumer.Taking?
    case ResetSlot => s.consumer.Resetting?
    case StoreTail => s.consumer.Releasing?
    case HearOf(v) => s.consumer.Away? && s.seenHead <= v < |s.headMsgs|
  }

  /** A write by the producer: a race unless it knows every earlier access to the slot. */
  function ProducerWrites(s: State, slot: nat, value: Option<Frame>, e: Event): State
    requires Shape(s) && slot < s.capacity
  {
    s.(buffer := s.buffer[slot := value],
       touched := s.touched[slot := s.touched[slot] + {e}],
       producerKnows := s.producerKnows + {e},
       raced := s.raced || !(s.touched[slot] <= s.producerKnows))
  }

  function ConsumerWrites(s: State, slot: nat, value: Option<Frame>, e: Event): State
    requires Shape(s) && slot < s.capacity
  {
    s.(buffer := s.buffer[slot := value],
       touched := s.touched[slot := s.touched[slot] + {e}],
       consumerKnows := s.consumerKnows + {e},
       raced := s.raced || !(s.touched[slot] <= s.consumerKnows))
  }

  function Apply(s: State, step: Step): State
    requires Shape(s) && Enabled(s, step)
  {
    match step
    case CallPush(frame) =>
      s.(producer := Loading(frame, s.headMsgs[Head(s)].word), attempts := s.attempts + 1)
    case LoadTail(v) =>
      var Loading(frame, h) := s.producer;
      s.(seenTail := v,
         producerKnows := s.producerKnows + s.tailMsgs[v].known,
         producer := if Distance(h, s.tailMsgs[v].word) >= s.capacity then CountingDrop else Filling(frame, h))
    case FillSlot =>
      var Filling(frame, h) := s.producer;
      ProducerWrites(s, h % s.capacity, Some(frame), Fill(Head(s))).(producer := Publishing(frame, h))
    case StoreHead =>
      var Publishing(frame, h) := s.producer;
      s.(headMsgs := s.headMsgs + [Message(Wrap(h + 1), s.producerKnows)],
         accepted := s.accepted + [frame],
         producer := CountingPush)
    case BumpPushed => s.(pushed := s.pushed + 1, producer := Outside)
    case BumpDropped => s.(dropped := s.dropped + 1, producer := Outside)
    case CallPop =>
      s.(consumer := Looking(s.tailMsgs[Tail(s)].word))
    case LoadHead(v) =>
      var t := s.consumer.t;
      s.(seenHead := v,
         consumerKnows := s.consumerKnows + s.headMsgs[v].known,
         consumer := if s.headMsgs[v].word == t then Away else Taking(t))
    case TakeSlot =>
      var t := s.consumer.t;
      var slot := t % s.capacity;
      ConsumerWrites(s, slot, None, Take(Tail(s))).(consumer := Resetting(t, s.buffer[slot]))
    case ResetSlot =>
      var Resetting(t, out) := s.consumer;
      ConsumerWrites(s, t % s.capacity, None, Reset(Tail(s))).(consumer := Releasing(t, out))
    case StoreTail =>
      var Releasing(t, out) := s.consumer;
      s.(tailMsgs := s.tailMsgs + [Message(Wrap(t + 1), s.consumerKnows)],
         popped := s.popped + [out],
         consumer := Away)
    case HearOf(v) =>
      s.(seenHead := v, consumerKnows := s.consumerKnows + s.headMsgs[v].known)
  }

  // ---------------------------------------------------------------------------
  // The inductive invariant, in four parts

  ghost predicate Counters(s: State)
    requires Shape(s)
  {
    && s.capacity < WORD
    && Tail(s) <= Head(s)
    && s.seenTail <= Tail(s) <= s.seenHead <= Head(s) <= s.seenTail + s.capacity
    && Words(s)
    && (s.producer.Loading? || s.producer.Filling? || s.producer.Publishing? ==> s.producer.h == Wrap(Head(s)))
    && (s.producer.Filling? || s.producer.Publishing? ==> Head(s) < s.seenTail + s.capacity)
    && (!s.consumer.Away? ==> s.consumer.t == Wrap(Tail(s)))
    && (Popping(s) ==> Tail(s) < s.seenHead)
  }

  /** The k-th store of a counter wrote k modulo 2^64. */
  ghost predicate Counted(msgs: seq<Message>) {
    forall k: nat :: k < |msgs| ==> msgs[k].word == Wrap(k)
  }

  ghost predicate Words(s: State) { Counted(s.headMsgs) && Counted(s.tailMsgs) }

  predicate Popping(s: State) { s.consumer.Taking? || s.consumer.Resetting? || s.consumer.Releasing? }

  /** The position has left its slot: its pop is over, or past the corresponding access. */
  predicate Taken(s: State, pos: nat) requires Shape(s) {
    pos < Tail(s) || (pos == Tail(s) && (s.consumer.Resetting? || s.consumer.Releasing?))
  }

  predicate Cleared(s: State, pos: nat) requires Shape(s) {
    pos < Tail(s) || (pos == Tail(s) && s.consumer.Releasing?)
  }

  predicate Filled(s: State, pos: nat) requires Shape(s) {
    pos < Head(s) || (pos == Head(s) && s.producer.Publishing?)
  }

  ghost predicate KnowsFills(known: set<Event>, n: nat) {
    forall pos: nat :: pos < n ==> Fill(pos) in known
  }

  ghost predicate KnowsPops(known: set<Event>, n: nat) {
    forall pos: nat :: pos < n ==> Take(pos) in known && Reset(pos) in known
  }

  ghost predicate Knowledge(s: State)
    requires Shape(s)
  {
    && (forall k: nat :: k < |s.headMsgs| ==> KnowsFills(s.headMsgs[k].known, k))
    && (forall k: nat :: k < |s.tailMsgs| ==> KnowsPops(s.tailMsgs[k].known, k))
    && (forall pos: nat :: Filled(s, pos) ==> Fill(pos) in s.producerKnows)
    && KnowsPops(s.producerKnows, s.seenTail)
    && KnowsFills(s.consumerKnows, s.seenHead)
    && (forall pos: nat :: Taken(s, pos) ==> Take(pos) in s.consumerKnows)
    && (forall pos: nat :: Cleared(s, pos) ==> Reset(pos) in s.consumerKnows)
  }

  ghost predicate Happened(s: State, e: Event) requires Shape(s) {
    match e
    case Fill(pos) => Filled(s, pos)
    case Take(pos) => Taken(s, pos)
    case Reset(pos) => Cleared(s, pos)
  }

  ghost predicate Accesses(s: State)
    requires Shape(s)
  {
    && !s.raced
    && forall i, e :: 0 <= i < s.capacity && e in s.touched[i] ==> e.pos % s.capacity == i && Happened(s, e)
  }

  /** The positions whose frame is in the buffer right now. */
  predicate Live(s: State, pos: nat) requires Shape(s) {
    Filled(s, pos) && !Taken(s, pos)
  }

  ghost predicate Data(s: State)
    requires Shape(s)
  {
    && |s.accepted| == Head(s)
    && |s.popped| == Tail(s) <= Head(s)
    && (forall k :: 0 <= k < Tail(s) ==> s.popped[k] == Some(s.accepted[k]))
    && (forall pos: nat :: Live(s, pos) && pos < Head(s) ==> s.buffer[pos % s.capacity] == Some(s.accepted[pos]))
    && (s.producer.Publishing? ==> s.buffer[Head(s) % s.capacity] == Some(s.producer.frame))
    && (s.consumer.Resetting? || s.consumer.Releasing? ==>
          Tail(s) < Head(s) && s.consumer.out == Some(s.accepted[Tail(s)]))
  }

  ghost predicate Statistics(s: State)
    requires Shape(s)
  {
    && s.pushed + (if s.producer.CountingPush? then 1 else 0) == |s.accepted|
    && s.attempts == |s.accepted| + s.dropped
                     + (if s.producer.Outside? || s.producer.CountingPush? then 0 else 1)
  }

  ghost predicate Inv(s: State) {
    Shape(s) && Counters(s) && Knowledge(s) && Accesses(s) && Data(s) && Statistics(s)
  }

  /** The slot about to be filled lies before the first wrap, or the capacity divides 2^64. */
  predicate WrapSafe(s: State, step: Step) requires 0 < |s.headMsgs| && 0 < s.capacity {
    WORD % s.capacity == 0 || Head(s) < WORD || (Head(s) == WORD && !step.FillSlot?)
  }

  lemma InitialHolds(capacity: nat)
    requires 0 < capacity < WORD
    ensures Inv(Initial(capacity))
  {
  }

  lemma StoreCounts(msgs: seq<Message>, word: Word, known: set<Event>)
    requires msgs != [] && Counted(msgs) && word == Wrap(|msgs| - 1)
    ensures Counted(msgs + [Message(Wrap(word + 1), known)])
  {
    WrapNext(|msgs| - 1);
  }

  lemma OthersStoreNothing(s: State, step: Step)
    requires Shape(s) && Enabled(s, step) && !step.StoreHead? && !step.StoreTail?
    ensures Apply(s, step).headMsgs == s.headMsgs && Apply(s, step).tailMsgs == s.tailMsgs
  {
  }

  lemma WordsKept(s: State, step: Step)
    requires Shape(s) && Words(s) && Enabled(s, step)
    requires step.StoreHead? ==> s.producer.h == Wrap(Head(s))
    requires step.StoreTail? ==> s.consumer.t == Wrap(Tail(s))
    ensures Words(Apply(s, step))
  {
    match step
    case StoreHead => StoreCounts(s.headMsgs, s.producer.h, s.producerKnows);
    case StoreTail => StoreCounts(s.tailMsgs, s.consumer.t, s.consumerKnows);
    case _ => OthersStoreNothing(s, step);
  }

  lemma CountersKept(s: State, step: Step)
    requires Inv(s) && Enabled(s, step)
    ensures Shape(Apply(s, step)) && Counters(Apply(s, step))
  {
    var s' := Apply(s, step);
    WordsKept(s, step);
    match step
    case LoadTail(v) =>
      DistanceIsExact(Head(s), v);
    case LoadHead(v) =>
      assert s.headMsgs[v].word == Wrap(v);
      if s'.consumer.Taking? {
        assert v != Tail(s);
      }
    case _ =>
  }

  lemma KnowledgeKept(s: State, step: Step)
    requires Inv(s) && Enabled(s, step)
    ensures Shape(Apply(s, step)) && Knowledge(Apply(s, step))
  {
    CountersKept(s, step);
  }

  /** The producer's slot was last used a whole capacity ago, by a pop it has already heard of. */
  lemma FillIsOrdered(s: State)
    requires Inv(s) && s.producer.Filling? && WrapSafe(s, FillSlot)
    ensures s.producer.h % s.capacity == Head(s) % s.capacity
    ensures s.touched[Head(s) % s.capacity] <= s.producerKnows
    ensures forall pos: nat :: Live(s, pos) ==> pos % s.capacity != Head(s) % s.capacity
  {
    SlotIgnoresWrap(Head(s), s.capacity);
    var slot := Head(s) % s.capacity;
    forall pos: nat | pos < Head(s) && pos % s.capacity == slot
      ensures pos < s.seenTail
    {
      SameSlotApart(pos, Head(s), s.capacity);
    }
    forall e | e in s.touched[slot]
      ensures e in s.producerKnows
    {
      assert Happened(s, e);
    }
  }

  /** The consumer's slot holds the frame whose publication it has already seen. */
  lemma TakeIsOrdered(s: State)
    requires Inv(s) && (s.consumer.Taking? || s.consumer.Resetting?)
    requires WORD % s.capacity == 0 || Tail(s) < WORD
    ensures s.consumer.t % s.capacity == Tail(s) % s.capacity
    ensures s.touched[Tail(s) % s.capacity] <= s.consumerKnows
    ensures forall pos: nat :: Filled(s, pos) && pos > Tail(s) ==> pos % s.capacity != Tail(s) % s.capacity
  {
    SlotIgnoresWrap(Tail(s), s.capacity);
    var slot := Tail(s) % s.capacity;
    forall pos: nat | Filled(s, pos) && pos > Tail(s)
      ensures pos % s.capacity != slot
    {
      if pos % s.capacity == slot { SameSlotApart(Tail(s), pos, s.capacity); }
    }
    forall e | e in s.touched[slot]
      ensures e in s.consumerKnows
    {
      assert Happened(s, e);
    }
  }

  lemma FillKeepsAccesses(s: State)
    requires Inv(s) && s.producer.Filling? && WrapSafe(s, FillSlot)
    ensures Shape(Apply(s, FillSlot)) && Accesses(Apply(s, FillSlot))
  {
    FillIsOrdered(s);
  }

  lemma TakeKeepsAccesses(s: State, step: Step)
    requires Inv(s) && WrapSafe(s, step)
    requires (step.TakeSlot? || step.ResetSlot?) && Enabled(s, step)
    ensures Shape(Apply(s, step)) && Accesses(Apply(s, step))
  {
    var s' := Apply(s, step);
    TakeIsOrdered(s);
    assert !s'.raced && s'.capacity == s.capacity;
    forall i, e | 0 <= i < s.capacity && e in s'.touched[i]
      ensures e.pos % s.capacity == i && Happened(s', e)
    {
      if e in s.touched[i] {
        assert Happened(s, e);
        HappenedStays(s, step, e);
      }
    }
  }

  lemma AccessesKept(s: State, step: Step)
    requires Inv(s) && Enabled(s, step) && WrapSafe(s, step)
    ensures Shape(Apply(s, step)) && Accesses(Apply(s, step))
  {
    match step
    case FillSlot => FillKeepsAccesses(s);
    case TakeSlot => TakeKeepsAccesses(s, step);
    case ResetSlot => TakeKeepsAccesses(s, step);
    case _ => OthersKeepAccesses(s, step);
  }

  lemma OthersKeepAccesses(s: State, step: Step)
    requires Inv(s) && Enabled(s, step) && !step.FillSlot? && !step.TakeSlot? && !step.ResetSlot?
    ensures Shape(Apply(s, step)) && Accesses(Apply(s, step))
  {
    var s' := Apply(s, step);
    assert s'.touched == s.touched && s'.raced == s.raced && s'.capacity == s.capacity;
    forall i, e | 0 <= i < s.capacity && e in s'.touched[i]
      ensures e.pos % s.capacity == i && Happened(s', e)
    {
      assert e in s.touched[i];
      assert Happened(s, e);
      HappenedStays(s, step, e);
    }
  }

  lemma HappenedStays(s: State, step: Step, e: Event)
    requires Shape(s) && Enabled(s, step) && Shape(Apply(s, step)) && Happened(s, e)
    ensures Happened(Apply(s, step), e)
  {
  }

  lemma FillKeepsData(s: State)
    requires Inv(s) && s.producer.Filling? && WrapSafe(s, FillSlot)
    ensures Shape(Apply(s, FillSlot)) && Data(Apply(s, FillSlot))
  {
    var s' := Apply(s, FillSlot);
    FillIsOrdered(s);
    forall pos: nat | Live(s', pos) && pos < Head(s')
      ensures s'.buffer[pos % s.capacity] == Some(s'.accepted[pos])
    {
      assert Live(s, pos);
    }
  }

  lemma TakeKeepsData(s: State, step: Step)
    requires Inv(s) && WrapSafe(s, step)
    requires step.TakeSlot? || step.ResetSlot?
    requires Enabled(s, step)
    ensures Shape(Apply(s, step)) && Data(Apply(s, step))
  {
    var s' := Apply(s, step);
    TakeIsOrdered(s);
    if step.TakeSlot? { assert Live(s, Tail(s)); }
    forall pos: nat | Live(s', pos) && pos < Head(s')
      ensures s'.buffer[pos % s.capacity] == Some(s'.accepted[pos])
    {
      assert Live(s, pos);
    }
    if s.producer.Publishing? {
      assert Filled(s, Head(s));
    }
  }

  lemma DataKept(s: State, step: Step)
    requires Inv(s) && Enabled(s, step) && WrapSafe(s, step)
    ensures Shape(Apply(s, step)) && Data(Apply(s, step))
  {
    match step
    case FillSlot => FillKeepsData(s);
    case TakeSlot => TakeKeepsData(s, step);
    case ResetSlot => TakeKeepsData(s, step);
    case StoreHead => StoreHeadKeepsData(s);
    case StoreTail => StoreTailKeepsData(s);
    case _ =>
  }

  lemma StoreHeadKeepsData(s: State)
    requires Inv(s) && s.producer.Publishing?
    ensures Shape(Apply(s, StoreHead)) && Data(Apply(s, StoreHead))
  {
  }

  lemma StoreTailKeepsData(s: State)
    requires Inv(s) && s.consumer.Releasing?
    ensures Shape(Apply(s, StoreTail)) && Data(Apply(s, StoreTail))
  {
    var s' := Apply(s, StoreTail);
    forall pos: nat | Live(s', pos) && pos < Head(s')
      ensures s'.buffer[pos % s.capacity] == Some(s'.accepted[pos])
    {
      assert Live(s, pos);
    }
  }

  lemma StepKeeps(s: State, step: Step)
    requires Inv(s) && Enabled(s, step) && WrapSafe(s, step)
    ensures Inv(Apply(s, step))
  {
    CountersKept(s, step);
    KnowledgeKept(s, step);
    AccessesKept(s, step);
    DataKept(s, step);
  }

  // ---------------------------------------------------------------------------
  // Whole runs

  ghost predicate Schedule(s: State, steps: seq<Step>)
    decreases |steps|
  {
    steps != [] ==> Shape(s) && Enabled(s, steps[0]) && Shape(Apply(s, steps[0])) && Schedule(Apply(s, steps[0]), steps[1..])
  }

  ghost function Run(s: State, steps: seq<Step>): State
    requires Schedule(s, steps)
    decreases |steps|
  {
    if steps == [] then s else Run(Apply(s, steps[0]), steps[1..])
  }

  lemma {:induction false} RunKeeps(s: State, steps: seq<Step>)
    requires Inv(s) && Schedule(s, steps)
    requires WORD % s.capacity == 0 || Head(s) + |steps| <= WORD
    ensures Inv(Run(s, steps))
    decreases |steps|
  {
    if steps != [] {
      StepKeeps(s, steps[0]);
      RunKeeps(Apply(s, steps[0]), steps[1..]);
    }
  }

  /** Safety of every interleaving, with every legal stale load and any number of wrap-arounds. */
  lemma EveryRunIsSafe(capacity: nat, steps: seq<Step>)
    requires 0 < capacity < WORD && Schedule(Initial(capacity), steps)
    requires WORD % capacity == 0 || |steps| < WORD
    ensures var s := Run(Initial(capacity), steps);
            && Inv(s)
            && !s.raced
            && Distance(s.headMsgs[Head(s)].word, s.tailMsgs[Tail(s)].word) == Head(s) - Tail(s) <= capacity
            && |s.popped| <= |s.accepted|
            && (forall k :: 0 <= k < |s.popped| ==> s.popped[k] == Some(s.accepted[k]))
            && (forall pos: nat :: s.producer.Filling? && Live(s, pos)
                  ==> pos % capacity != s.producer.h % capacity)
  {
    InitialHolds(capacity);
    RunKeeps(Initial(capacity), steps);
    var s := Run(Initial(capacity), steps);
    CapacityFixed(Initial(capacity), steps);
    DistanceIsExact(Head(s), Tail(s));
    if s.producer.Filling? { FillIsOrdered(s); }
  }

  lemma {:induction false} CapacityFixed(s: State, steps: seq<Step>)
    requires Schedule(s, steps)
    requires 0 < |s.headMsgs|
    ensures Run(s, steps).capacity == s.capacity
    ensures |s.headMsgs| <= |Run(s, steps).headMsgs| <= |s.headMsgs| + |steps|
    decreases |steps|
  {
    if steps != [] { CapacityFixed(Apply(s, steps[0]), steps[1..]); }
  }

  /** What a thread has read or heard of never grows older. */
  lemma {:induction false} SeenGrows(s: State, steps: seq<Step>)
    requires Schedule(s, steps)
    ensures s.seenHead <= Run(s, steps).seenHead && s.seenTail <= Run(s, steps).seenTail
    decreases |steps|
  {
    if steps != [] { SeenGrows(Apply(s, steps[0]), steps[1..]); }
  }

  /** A frame whose store the consumer has heard of is not missed: from then on a pop finds the queue empty
      only if that frame and all before it have been popped. */
  lemma HeardOfIsNotMissed(s: State, k: nat, steps: seq<Step>, v: nat)
    requires Inv(s) && Enabled(s, HearOf(k)) && Schedule(Apply(s, HearOf(k)), steps)
    requires WORD % s.capacity == 0 || Head(s) + |steps| < WORD
    requires var t := Run(Apply(s, HearOf(k)), steps);
             Shape(t) && Enabled(t, LoadHead(v)) && Apply(t, LoadHead(v)).consumer.Away?
    ensures k <= Tail(Run(Apply(s, HearOf(k)), steps))
  {
    var heard := Apply(s, HearOf(k));
    var t := Run(heard, steps);
    StepKeeps(s, HearOf(k));
    RunKeeps(heard, steps);
    SeenGrows(heard, steps);
    WrapInjective(Tail(t), v);
  }

  // ---------------------------------------------------------------------------
  // Refinement of a bounded first-in first-out queue

  /** The abstract queue: pushing drops the newest frame when full. */
  datatype Fifo = Fifo(capacity: nat, items: seq<Frame>)

  function Abstract(s: State): Fifo
    requires Shape(s) && |s.accepted| == Head(s) && Tail(s) <= Head(s)
  {
    Fifo(s.capacity, s.accepted[Tail(s)..])
  }

  /** The store of head is an abstract push, the store of tail an abstract pop; nothing else shows.
      A load that returns the newest message decides exactly as the abstract queue would. */
  lemma StepRefinesFifo(s: State, step: Step)
    requires Inv(s) && Enabled(s, step) && WrapSafe(s, step)
    ensures Inv(Apply(s, step))
    ensures var (q, q') := (Abstract(s), Abstract(Apply(s, step)));
            && |q.items| <= q.capacity == q'.capacity
            && match step
               case StoreHead => |q.items| < q.capacity && q'.items == q.items + [s.producer.frame]
               case StoreTail => 0 < |q.items| && s.consumer.out == Some(q.items[0]) && q'.items == q.items[1..]
               case LoadTail(v) =>
                 && q' == q
                 && (Apply(s, step).producer.CountingDrop? <==> Head(s) - v == q.capacity)
                 && (v == Tail(s) ==> (Apply(s, step).producer.CountingDrop? <==> |q.items| == q.capacity))
               case LoadHead(v) =>
                 && q' == q
                 && (Apply(s, step).consumer.Away? ==> v == Tail(s))
                 && (v == Head(s) ==> (Apply(s, step).consumer.Away? <==> q.items == []))
               case _ => q' == q
  {
    StepKeeps(s, step);
    match step
    case LoadTail(v) => DistanceIsExact(Head(s), v);
    case LoadHead(v) =>
      if s.headMsgs[v].word == s.consumer.t { WrapInjective(Tail(s), v); }
    case _ =>
  }
}
