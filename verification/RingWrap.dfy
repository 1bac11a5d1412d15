/** What happens to the ring buffer when its counters wrap: for which capacities no frame is overwritten. */
module RingWrap {
  import opened Types
  import opened Counter64
  import opened RingMachine

  /** The producer is about to write a slot that still holds a queued frame. */
  ghost predicate AboutToOverwrite(s: State) {
    && Shape(s)
    && s.producer.Filling?
    && exists pos: nat :: Live(s, pos) && SlotOf(pos, s.capacity) == s.producer.h % s.capacity
  }

  ghost predicate NeverOverwrites(capacity: nat)
    requires 0 < capacity
  {
    forall steps :: Schedule(Initial(capacity), steps) ==> !AboutToOverwrite(Run(Initial(capacity), steps))
  }

  lemma {:induction false} Extend(s: State, first: seq<Step>, more: seq<Step>)
    requires Schedule(s, first) && Schedule(Run(s, first), more)
    ensures Schedule(s, first + more) && Run(s, first + more) == Run(Run(s, first), more)
    decreases |first|
  {
    if first == [] {
      assert first + more == more;
    } else {
      Extend(Apply(s, first[0]), first[1..], more);
      assert (first + more)[0] == first[0] && (first + more)[1..] == first[1..] + more;
    }
  }

  lemma One(s: State, step: Step)
    requires Shape(s) && Enabled(s, step) && Shape(Apply(s, step))
    ensures Schedule(s, [step]) && Run(s, [step]) == Apply(s, step)
  {
    var rest := [step][1..];
    assert rest == [];
    assert Run(Apply(s, step), rest) == Apply(s, step);
  }

  /** Both threads are between calls, `head` frames were pushed and `tail` popped. */
  ghost predicate Quiet(s: State, capacity: nat, head: nat, tail: nat) {
    && Inv(s) && s.capacity == capacity && Head(s) == head && Tail(s) == tail
    && s.producer.Outside? && s.consumer.Away?
  }

  ghost predicate Reaches(capacity: nat, steps: seq<Step>, s: State)
    requires 0 < capacity
  {
    Schedule(Initial(capacity), steps) && Run(Initial(capacity), steps) == s
  }

  lemma Then(capacity: nat, steps: seq<Step>, s: State, step: Step) returns (steps': seq<Step>, s': State)
    requires 0 < capacity && Reaches(capacity, steps, s)
    requires Inv(s) && Enabled(s, step) && WrapSafe(s, step)
    ensures s' == Apply(s, step) && Inv(s') && Reaches(capacity, steps', s')
  {
    StepKeeps(s, step);
    One(s, step);
    Extend(Initial(capacity), steps, [step]);
    steps', s' := steps + [step], Apply(s, step);
  }

  lemma StartPush(capacity: nat, steps: seq<Step>, s: State, frame: Frame) returns (steps': seq<Step>, s': State)
    requires 0 < capacity && Reaches(capacity, steps, s)
    requires Inv(s) && s.producer.Outside? && s.capacity == capacity && Head(s) - Tail(s) < capacity
    requires Head(s) <= WORD
    ensures Reaches(capacity, steps', s') && Shape(s') && s'.capacity == capacity
    ensures s'.producer == Filling(frame, Wrap(Head(s)))
    ensures s'.headMsgs == s.headMsgs && s'.tailMsgs == s.tailMsgs && s'.consumer == s.consumer
    ensures Inv(s')
  {
    DistanceIsExact(Head(s), Tail(s));
    steps', s' := Then(capacity, steps, s, CallPush(frame));
    steps', s' := Then(capacity, steps', s', LoadTail(Tail(s)));
  }

  lemma PushOne(capacity: nat, steps: seq<Step>, s: State, n: nat, m: nat, frame: Frame) returns (steps': seq<Step>, s': State)
    requires 0 < capacity && Reaches(capacity, steps, s)
    requires Quiet(s, capacity, n, m) && n - m < capacity && n < WORD
    ensures Reaches(capacity, steps', s') && Quiet(s', capacity, n + 1, m)
  {
    steps', s' := StartPush(capacity, steps, s, frame);
    steps', s' := FillOne(capacity, steps', s');
    steps', s' := EndPush(capacity, steps', s');
  }

  lemma FillOne(capacity: nat, steps: seq<Step>, s: State) returns (steps': seq<Step>, s': State)
    requires 0 < capacity && Reaches(capacity, steps, s)
    requires Inv(s) && s.producer.Filling? && Head(s) < WORD
    ensures Reaches(capacity, steps', s') && Inv(s') && s'.producer.Publishing?
    ensures s'.capacity == s.capacity && s'.consumer == s.consumer && s'.headMsgs == s.headMsgs && s'.tailMsgs == s.tailMsgs
  {
    steps', s' := Then(capacity, steps, s, FillSlot);
  }

  lemma EndPush(capacity: nat, steps: seq<Step>, s: State) returns (steps': seq<Step>, s': State)
    requires 0 < capacity && Reaches(capacity, steps, s)
    requires Inv(s) && s.producer.Publishing? && Head(s) < WORD
    ensures Reaches(capacity, steps', s') && Inv(s') && s'.producer.Outside?
    ensures s'.capacity == s.capacity && s'.consumer == s.consumer && Head(s') == Head(s) + 1 && Tail(s') == Tail(s)
  {
    steps', s' := Then(capacity, steps, s, StoreHead);
    steps', s' := Then(capacity, steps', s', BumpPushed);
  }

  lemma StartPop(capacity: nat, steps: seq<Step>, s: State, n: nat, m: nat) returns (steps': seq<Step>, s': State)
    requires 0 < capacity && Reaches(capacity, steps, s)
    requires Quiet(s, capacity, n, m) && m < n <= WORD
    ensures Reaches(capacity, steps', s') && Inv(s') && s'.consumer.Taking? && s'.producer.Outside?
    ensures s'.capacity == capacity && Head(s') == n && Tail(s') == m
  {
    DistanceIsExact(n, m);
    steps', s' := Then(capacity, steps, s, CallPop);
    steps', s' := Then(capacity, steps', s', LoadHead(n));
  }

  lemma PopOne(capacity: nat, steps: seq<Step>, s: State, n: nat, m: nat) returns (steps': seq<Step>, s': State)
    requires 0 < capacity && Reaches(capacity, steps, s)
    requires Quiet(s, capacity, n, m) && m < n <= WORD
    ensures Reaches(capacity, steps', s') && Quiet(s', capacity, n, m + 1)
  {
    steps', s' := StartPop(capacity, steps, s, n, m);
    steps', s' := Then(capacity, steps', s', TakeSlot);
    steps', s' := Then(capacity, steps', s', ResetSlot);
    steps', s' := Then(capacity, steps', s', StoreTail);
  }

  /** One push and one pop at a time bring both counters to any value short of the wrap. */
  lemma {:induction false} Advance(capacity: nat, n: nat, frame: Frame) returns (steps: seq<Step>, s: State)
    requires 0 < capacity < WORD && n < WORD
    ensures Reaches(capacity, steps, s) && Quiet(s, capacity, n, n)
    decreases n
  {
    if n == 0 {
      InitialHolds(capacity);
      steps, s := [], Initial(capacity);
    } else {
      steps, s := Advance(capacity, n - 1, frame);
      steps, s := PushOne(capacity, steps, s, n - 1, n - 1, frame);
      steps, s := PopOne(capacity, steps, s, n, n - 1);
    }
  }

  /** With room to spare, pushes alone bring head up to the wrap. */
  lemma {:induction false} Fill(capacity: nat, m: nat, k: nat, frame: Frame) returns (steps: seq<Step>, s: State)
    requires 0 < capacity < WORD && m < WORD && k <= capacity && m + k <= WORD
    ensures Reaches(capacity, steps, s) && Quiet(s, capacity, m + k, m)
    decreases k
  {
    if k == 0 {
      steps, s := Advance(capacity, m, frame);
    } else {
      steps, s := Fill(capacity, m, k - 1, frame);
      steps, s := PushOne(capacity, steps, s, m + k - 1, m, frame);
    }
  }

  /** A capacity that does not divide 2^64 overwrites a queued frame at the first wrap. */
  lemma OverwritesAtTheWrap(capacity: nat, frame: Frame) returns (steps: seq<Step>)
    requires 0 < capacity < WORD && WORD % capacity != 0
    ensures Schedule(Initial(capacity), steps) && AboutToOverwrite(Run(Initial(capacity), steps))
  {
    ClashAtTheWrap(capacity);
    var r := WORD % capacity;
    var m := WORD - r;
    var s: State;
    steps, s := Fill(capacity, m, r, frame);
    steps, s := StartPush(capacity, steps, s, frame);
    assert Filled(s, m) && !Taken(s, m);
    assert AboutToOverwrite(s) by {
      assert Live(s, m) && SlotOf(m, s.capacity) == s.producer.h % s.capacity;
    }
  }

  /** The ring never overwrites a queued frame exactly when its capacity divides 2^64. */
  lemma OverwriteFreeCapacities(capacity: nat)
    requires 0 < capacity < WORD
    ensures NeverOverwrites(capacity) <==> 0x1_0000_0000_0000_0000 % capacity == 0
  {
    if WORD % capacity == 0 {
      forall steps | Schedule(Initial(capacity), steps)
        ensures !AboutToOverwrite(Run(Initial(capacity), steps))
      {
        EveryRunIsSafe(capacity, steps);
        CapacityFixed(Initial(capacity), steps);
        var s := Run(Initial(capacity), steps);
        forall pos: nat | Live(s, pos)
          ensures SlotOf(pos, capacity) == pos % capacity
        {
          SlotIgnoresWrap(pos, capacity);
        }
      }
    } else {
      var frame := Frame(Visual2D, 0, 0, 0, 0, "", []);
      var steps := OverwritesAtTheWrap(capacity, frame);
    }
  }
}
