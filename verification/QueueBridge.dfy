/** Why one step may stand for a whole queue operation: the steps of the ring that show, in any state of
    one of the three queues, are the queue steps of the pipeline's state machine. */
module QueueBridge {
  import opened Types
  import opened Counter64
  import Ring = RingMachine
  import Pipe = PipelineMachine

  /** The ring is the queue of this group. What the mutex has ordered before the consumer, the consumer of
      the ring has heard of; it may have read more. */
  ghost predicate Matches(r: Ring.State, p: Pipe.State, g: Group) {
    && Ring.Inv(r) && Pipe.Shape(p)
    && p.capacity == r.capacity
    && p.accepted.At(g) == r.accepted
    && p.queues.At(g) == r.accepted[Ring.Tail(r)..]
    && |p.removed.At(g)| == Ring.Tail(r)
    && p.released.At(g) <= |r.accepted|
    && p.visible.At(g) <= r.seenHead
  }

  lemma StartMatches(capacity: nat, g: Group)
    requires 0 < capacity < WORD
    ensures Matches(Ring.Initial(capacity), Pipe.Initial(capacity), g)
  {
    Ring.InitialHolds(capacity);
  }

  /** The capture thread is inside push for this group with this frame. */
  ghost predicate Offers(r: Ring.State, p: Pipe.State, g: Group, frame: Frame) {
    Pipe.Shape(p) && Pipe.Offered(p, frame) && GROUPS[p.capture.i] == g
  }

  lemma StoreHeadFacts(r: Ring.State)
    requires Ring.Inv(r) && Ring.Enabled(r, Ring.StoreHead) && Ring.WrapSafe(r, Ring.StoreHead)
    ensures var r' := Ring.Apply(r, Ring.StoreHead);
            && Ring.Inv(r') && r'.accepted == r.accepted + [r.producer.frame]
            && Ring.Tail(r') == Ring.Tail(r) <= |r.accepted| < Ring.Tail(r) + r.capacity
            && r'.capacity == r.capacity && r'.seenHead == r.seenHead
  {
    Ring.StepRefinesFifo(r, Ring.StoreHead);
  }

  lemma StoreTailFacts(r: Ring.State)
    requires Ring.Inv(r) && Ring.Enabled(r, Ring.StoreTail) && Ring.WrapSafe(r, Ring.StoreTail)
    ensures var r' := Ring.Apply(r, Ring.StoreTail);
            && Ring.Inv(r') && r'.accepted == r.accepted
            && Ring.Tail(r') == Ring.Tail(r) + 1 <= |r.accepted|
            && r.consumer.out == Some(r.accepted[Ring.Tail(r)])
            && r'.capacity == r.capacity && r'.seenHead == r.seenHead
  {
    Ring.StepRefinesFifo(r, Ring.StoreTail);
  }

  lemma LoadHeadFacts(r: Ring.State, v: nat)
    requires Ring.Inv(r) && Ring.Enabled(r, Ring.LoadHead(v)) && Ring.WrapSafe(r, Ring.LoadHead(v))
    ensures var r' := Ring.Apply(r, Ring.LoadHead(v));
            && Ring.Inv(r') && (r'.consumer.Away? ==> r.seenHead <= Ring.Tail(r))
  {
    Ring.StepRefinesFifo(r, Ring.LoadHead(v));
  }

  /** Steps that change none of what the pipeline's state machine sees of a queue. */
  predicate Unseen(step: Ring.Step) { !step.StoreHead? && !step.StoreTail? }

  lemma UnseenFacts(r: Ring.State, step: Ring.Step)
    requires Ring.Inv(r) && Ring.Enabled(r, step) && Ring.WrapSafe(r, step) && Unseen(step)
    ensures var r' := Ring.Apply(r, step);
            && Ring.Inv(r') && r'.accepted == r.accepted && Ring.Tail(r') == Ring.Tail(r)
            && r'.capacity == r.capacity && r.seenHead <= r'.seenHead
  {
    Ring.StepKeeps(r, step);
  }

  /** The store of head: there is room, and the pipeline accepts the frame. */
  lemma StoreHeadAccepts(r: Ring.State, p: Pipe.State, g: Group)
    requires Matches(r, p, g) && Ring.Enabled(r, Ring.StoreHead) && Ring.WrapSafe(r, Ring.StoreHead)
    requires Offers(r, p, g, r.producer.frame)
    ensures Pipe.Enabled(p, Pipe.Accept(r.producer.frame))
    ensures Matches(Ring.Apply(r, Ring.StoreHead), Pipe.Apply(p, Pipe.Accept(r.producer.frame)), g)
  {
    StoreHeadFacts(r);
    var r' := Ring.Apply(r, Ring.StoreHead);
    assert r'.accepted[Ring.Tail(r)..] == r.accepted[Ring.Tail(r)..] + [r.producer.frame];
  }

  /** A load of tail that finds the queue full, on however old a value, is a refused push. */
  lemma FullLoadRefuses(r: Ring.State, p: Pipe.State, g: Group, v: nat)
    requires Matches(r, p, g) && Ring.Enabled(r, Ring.LoadTail(v)) && Ring.WrapSafe(r, Ring.LoadTail(v))
    requires Ring.Apply(r, Ring.LoadTail(v)).producer.CountingDrop? && Offers(r, p, g, r.producer.frame)
    ensures Pipe.Enabled(p, Pipe.Refuse(r.producer.frame))
    ensures Matches(Ring.Apply(r, Ring.LoadTail(v)), Pipe.Apply(p, Pipe.Refuse(r.producer.frame)), g)
  {
    UnseenFacts(r, Ring.LoadTail(v));
  }

  /** The store of tail takes the first frame of the queue, for the publisher or for a drain. */
  lemma StoreTailRemoves(r: Ring.State, p: Pipe.State, g: Group)
    requires Matches(r, p, g) && Ring.Enabled(r, Ring.StoreTail) && Ring.WrapSafe(r, Ring.StoreTail)
    ensures p.queues.At(g) != [] && r.consumer.out == Some(p.queues.At(g)[0])
    ensures Pipe.Enabled(p, Pipe.DrainItem(g)) && Matches(Ring.Apply(r, Ring.StoreTail), Pipe.Apply(p, Pipe.DrainItem(g)), g)
    ensures p.consumer.Scan? && p.consumer.i < 3 && GROUPS[p.consumer.i] == g ==>
              Pipe.Enabled(p, Pipe.PopItem) && Matches(Ring.Apply(r, Ring.StoreTail), Pipe.Apply(p, Pipe.PopItem), g)
  {
    StoreTailFacts(r);
    assert r.accepted[Ring.Tail(r)..][1..] == r.accepted[Ring.Tail(r) + 1..];
  }

  /** A load of head that finds nothing is allowed to the pipeline's scan. */
  lemma EmptyLoadSeesEmpty(r: Ring.State, p: Pipe.State, g: Group, v: nat)
    requires Matches(r, p, g) && Ring.Enabled(r, Ring.LoadHead(v)) && Ring.WrapSafe(r, Ring.LoadHead(v))
    requires Ring.Apply(r, Ring.LoadHead(v)).consumer.Away?
    requires p.consumer.Scan? && p.consumer.i < 3 && GROUPS[p.consumer.i] == g
    ensures Pipe.Enabled(p, Pipe.SeeEmpty)
    ensures Matches(Ring.Apply(r, Ring.LoadHead(v)), Pipe.Apply(p, Pipe.SeeEmpty), g)
  {
    LoadHeadFacts(r, v);
    UnseenFacts(r, Ring.LoadHead(v));
  }

  /** No other step of the ring shows. */
  lemma OtherRingSteps(r: Ring.State, p: Pipe.State, g: Group, step: Ring.Step)
    requires Matches(r, p, g) && Ring.Enabled(r, step) && Ring.WrapSafe(r, step) && Unseen(step)
    ensures Matches(Ring.Apply(r, step), p, g)
  {
    UnseenFacts(r, step);
  }

  /** Taking the mutex orders every released push before the consumer: the ring's consumer hears of it. */
  lemma LockHears(r: Ring.State, p: Pipe.State, g: Group, step: Pipe.Step) returns (k: nat)
    requires Matches(r, p, g) && r.consumer.Away? && Pipe.Enabled(p, step) && (step.TakeLock? || step.Relock?)
    requires Ring.WrapSafe(r, Ring.HearOf(0))
    ensures p.released.At(g) <= k && Ring.Enabled(r, Ring.HearOf(k))
    ensures Matches(Ring.Apply(r, Ring.HearOf(k)), Pipe.Apply(p, step), g)
  {
    k := if p.released.At(g) <= r.seenHead then r.seenHead else p.released.At(g);
    SeenIsStored(r);
    UnseenFacts(r, Ring.HearOf(k));
  }

  lemma SeenIsStored(r: Ring.State)
    requires Ring.Inv(r)
    ensures r.seenHead < |r.headMsgs| && |r.accepted| == |r.headMsgs| - 1
  {
  }

  /** The step is an operation on the queue of this group, or takes the mutex. */
  ghost predicate Concerns(p: Pipe.State, step: Pipe.Step, g: Group)
    requires Pipe.Shape(p) && Pipe.Enabled(p, step)
  {
    match step
    case Accept(_) => GROUPS[p.capture.i] == g
    case PopItem => GROUPS[p.consumer.i] == g
    case DrainItem(o) => o == g
    case TakeLock => true
    case Relock => true
    case _ => false
  }

  lemma QueueUntouched(p: Pipe.State, g: Group, step: Pipe.Step)
    requires Pipe.Shape(p) && Pipe.Enabled(p, step) && !Concerns(p, step, g)
    ensures var p' := Pipe.Apply(p, step);
            && Pipe.Shape(p') && p'.capacity == p.capacity
            && p'.accepted.At(g) == p.accepted.At(g) && p'.queues.At(g) == p.queues.At(g)
            && p'.removed.At(g) == p.removed.At(g) && p'.visible.At(g) == p.visible.At(g)
            && (p'.released.At(g) == p.released.At(g) || p'.released.At(g) == |p.accepted.At(g)|)
  {
  }

  /** No other step of the pipeline touches the queue. */
  lemma OtherPipelineSteps(r: Ring.State, p: Pipe.State, g: Group, step: Pipe.Step)
    requires Matches(r, p, g) && Pipe.Enabled(p, step) && !Concerns(p, step, g)
    ensures Matches(r, Pipe.Apply(p, step), g)
  {
    QueueUntouched(p, g, step);
  }
}
