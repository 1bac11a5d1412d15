/** Any number of consumers on one ring: frames keep their order exactly as long as no pop begins while
    another one is under way. Every step sees the latest values here. */
module OverlappingPops {
  import opened Types
  import opened Counter64

  /** Where a call of try_pop stands: it has loaded the counters, or also moved the frame out. */
  datatype Pop = Idle | Loaded(t: nat) | Holding(t: nat, out: Option<Frame>)

  datatype State = State(
    slots: seq<Option<Frame>>, head: nat, tail: nat, pops: seq<Pop>,
    pushed: seq<Frame>,            // every frame pushed, in order
    popped: seq<Option<Frame>>)    // what the finished pops returned, in order

  datatype Step = Push(frame: Frame) | Load(who: nat) | Take(who: nat) | Store(who: nat)

  predicate Enabled(s: State, step: Step) {
    match step
    case Push(_) => s.head - s.tail < |s.slots|
    case Load(who) => who < |s.pops| && s.pops[who].Idle? && s.head != s.tail
    case Take(who) => who < |s.pops| && s.pops[who].Loaded?
    case Store(who) => who < |s.pops| && s.pops[who].Holding?
  }

  function Apply(s: State, step: Step): State
    requires 0 < |s.slots| && Enabled(s, step)
  {
    match step
    case Push(frame) =>
      s.(slots := s.slots[s.head % |s.slots| := Some(frame)], head := s.head + 1, pushed := s.pushed + [frame])
    case Load(who) => s.(pops := s.pops[who := Loaded(s.tail)])
    case Take(who) =>
      var slot := s.pops[who].t % |s.slots|;
      s.(slots := s.slots[slot := None], pops := s.pops[who := Holding(s.pops[who].t, s.slots[slot])])
    case Store(who) =>
      s.(tail := s.pops[who].t + 1, popped := s.popped + [s.pops[who].out], pops := s.pops[who := Idle])
  }

  function Start(capacity: nat, consumers: nat): State {
    State(seq(capacity, i => None), 0, 0, seq(consumers, i => Idle), [], [])
  }

  /** The state after the steps, None if one of them was not possible. */
  function Run(s: State, steps: seq<Step>): Option<State> {
    if steps == [] then Some(s)
    else match Run(s, steps[..|steps| - 1])
      case None => None
      case Some(s') =>
        if 0 < |s'.slots| && Enabled(s', steps[|steps| - 1]) then Some(Apply(s', steps[|steps| - 1])) else None
  }

  predicate OthersIdle(s: State, who: nat) {
    forall i :: 0 <= i < |s.pops| && i != who ==> s.pops[i].Idle?
  }

  /** The steps are possible, and no pop among them begins while another one is under way. */
  predicate Orderly(s: State, steps: seq<Step>) {
    steps != [] ==>
      var init, last := steps[..|steps| - 1], steps[|steps| - 1];
      Orderly(s, init) && Run(s, steps).Some? && (last.Load? ==> OthersIdle(Run(s, init).value, last.who))
  }

  /** First in, first out: each finished pop has returned the oldest frame not yet returned. */
  predicate InOrder(s: State) {
    |s.popped| <= |s.pushed| && forall k :: 0 <= k < |s.popped| ==> s.popped[k] == Some(s.pushed[k])
  }

  // ---------------------------------------------------------------------------
  // Without overlap

  /** Every frame still queued is in its slot, but for one a pop has just moved out. */
  predicate InSlot(s: State, pos: nat) requires 0 < |s.slots| && pos < |s.pushed| {
    s.slots[pos % |s.slots|] == Some(s.pushed[pos])
  }

  predicate SomeHolds(s: State) { exists i :: 0 <= i < |s.pops| && s.pops[i].Holding? }

  ghost predicate Inv(s: State) {
    && 0 < |s.slots|
    && s.head == |s.pushed| && s.tail == |s.popped| <= s.head <= s.tail + |s.slots|
    && InOrder(s)
    && (forall i, j :: 0 <= i < j < |s.pops| ==> s.pops[i].Idle? || s.pops[j].Idle?)
    && (forall i :: 0 <= i < |s.pops| && !s.pops[i].Idle? ==> s.pops[i].t == s.tail < s.head)
    && (forall i :: 0 <= i < |s.pops| && s.pops[i].Holding? ==>
          s.pops[i].out == Some(s.pushed[s.tail]) && s.slots[s.tail % |s.slots|] == None)
    && (forall pos :: s.tail < pos < s.head ==> InSlot(s, pos))
    && (s.tail < s.head && !SomeHolds(s) ==> InSlot(s, s.tail))
  }

  lemma OwnSlots(s: State, a: nat, b: nat)
    requires 0 < |s.slots| && a < b < a + |s.slots|
    ensures a % |s.slots| != b % |s.slots|
  {
    ConsecutiveDiffer(a, b, |s.slots|);
  }

  lemma PushKeeps(s: State, frame: Frame)
    requires Inv(s) && Enabled(s, Push(frame))
    ensures Inv(Apply(s, Push(frame)))
  {
    var s' := Apply(s, Push(frame));
    assert s'.pops == s.pops && (SomeHolds(s') <==> SomeHolds(s));
    forall pos: nat | s.tail <= pos < s.head
      ensures s'.slots[pos % |s.slots|] == s.slots[pos % |s.slots|] && s'.pushed[pos] == s.pushed[pos]
    {
      OwnSlots(s, pos, s.head);
    }
    assert forall pos :: s.tail < pos < s.head ==> InSlot(s, pos) ==> InSlot(s', pos);
    assert InSlot(s', s.head);
  }

  lemma LoadKeeps(s: State, who: nat)
    requires Inv(s) && Enabled(s, Load(who)) && OthersIdle(s, who)
    ensures Inv(Apply(s, Load(who)))
  {
    var s' := Apply(s, Load(who));
    assert !SomeHolds(s) && !SomeHolds(s');
    assert forall pos :: s.tail <= pos < s.head ==> InSlot(s, pos) ==> InSlot(s', pos);
  }

  lemma TakeKeeps(s: State, who: nat)
    requires Inv(s) && Enabled(s, Take(who))
    ensures Inv(Apply(s, Take(who)))
  {
    var s' := Apply(s, Take(who));
    assert !SomeHolds(s);
    assert s'.pops[who].Holding? && SomeHolds(s');
    forall pos: nat | s.tail < pos < s.head
      ensures InSlot(s', pos)
    {
      assert InSlot(s, pos);
      OwnSlots(s, s.tail, pos);
    }
  }

  lemma StoreKeeps(s: State, who: nat)
    requires Inv(s) && Enabled(s, Store(who))
    ensures Inv(Apply(s, Store(who)))
  {
    var s' := Apply(s, Store(who));
    assert forall pos :: s.tail < pos < s.head ==> InSlot(s, pos) ==> InSlot(s', pos);
    assert !SomeHolds(s');
  }

  /** As long as no pop begins while another is under way, every state is in order. */
  lemma {:induction false} OrderlyKeeps(s: State, steps: seq<Step>)
    requires Inv(s) && Orderly(s, steps)
    ensures Run(s, steps).Some? && Inv(Run(s, steps).value)
  {
    if steps != [] {
      var init, last := steps[..|steps| - 1], steps[|steps| - 1];
      OrderlyKeeps(s, init);
      var s' := Run(s, init).value;
      match last
      case Push(frame) => PushKeeps(s', frame);
      case Load(who) => LoadKeeps(s', who);
      case Take(who) => TakeKeeps(s', who);
      case Store(who) => StoreKeeps(s', who);
    }
  }

  lemma StartHolds(capacity: nat, consumers: nat)
    requires 0 < capacity
    ensures Inv(Start(capacity, consumers))
  {
  }

  // ---------------------------------------------------------------------------
  // With overlap

  /** One more step of an orderly run. */
  lemma Then(s: State, steps: seq<Step>, s': State, step: Step) returns (steps': seq<Step>, s'': State)
    requires Orderly(s, steps) && Run(s, steps) == Some(s') && 0 < |s'.slots|
    requires Enabled(s', step) && !step.Load?
    ensures steps' == steps + [step] && s'' == Apply(s', step)
    ensures Orderly(s, steps') && Run(s, steps') == Some(s'')
  {
    steps', s'' := steps + [step], Apply(s', step);
    LastOf(steps, step);
    StepsTo(s, steps, s', step);
  }

  /** A second pop has loaded the counters: both go on, and one of them returns a null frame. */
  lemma SecondPopFindsNothing(s: State, who: nat, other: nat) returns (more: seq<Step>)
    requires Inv(s) && Enabled(s, Load(who)) && other < |s.pops| && other != who && !s.pops[other].Idle?
    ensures var s' := Apply(s, Load(who));
            Orderly(s', more) && Run(s', more).Some? && !InOrder(Run(s', more).value)
  {
    var s1 := Apply(s, Load(who));
    var x := s1;
    more := [];
    if s.pops[other].Loaded? {
      more, x := Then(s1, more, x, Take(other));
    }
    var slot := s.tail % |s.slots|;
    assert x.slots[slot] == None && x.pops[other].Holding? && x.pops[who] == Loaded(s.tail);
    more, x := Then(s1, more, x, Store(other));
    more, x := Then(s1, more, x, Take(who));
    assert x.pops[who].out == None;
    more, x := Then(s1, more, x, Store(who));
    assert x.popped[|x.popped| - 1] == None;
  }

  /** In every state that a run without overlap reaches: whatever follows a load without further overlap
      stays first in, first out exactly when no other pop is under way at that load. */
  lemma OrderKeptWithoutOverlap(capacity: nat, consumers: nat, steps: seq<Step>, who: nat)
    requires 0 < capacity && Orderly(Start(capacity, consumers), steps)
    requires Run(Start(capacity, consumers), steps).Some?
    requires Enabled(Run(Start(capacity, consumers), steps).value, Load(who))
    ensures 0 < |Run(Start(capacity, consumers), steps).value.slots|
    ensures var s := Run(Start(capacity, consumers), steps).value;
            var s' := Apply(s, Load(who));
            InOrder(s) &&
            ((forall more :: Orderly(s', more) && Run(s', more).Some? ==> InOrder(Run(s', more).value)) <==> OthersIdle(s, who))
  {
    StartHolds(capacity, consumers);
    OrderlyKeeps(Start(capacity, consumers), steps);
    var s := Run(Start(capacity, consumers), steps).value;
    var s' := Apply(s, Load(who));
    if OthersIdle(s, who) {
      LoadKeeps(s, who);
      forall more | Orderly(s', more)
        ensures Run(s', more).Some? && InOrder(Run(s', more).value)
      {
        OrderlyKeeps(s', more);
      }
    } else {
      var other: nat :| other < |s.pops| && other != who && !s.pops[other].Idle?;
      var more := SecondPopFindsNothing(s, who, other);
    }
  }

  /** A schedule with overlap in which frames themselves change places: both consumers load the counters,
      the first finishes its pop, two more frames are pushed, and the second takes the newer of them. Its
      store leaves the tail where it was, so the older one comes last. */
  function Reordering(f0: Frame, f1: Frame, f2: Frame): seq<Step> {
    [Push(f0), Load(0), Load(1), Take(0), Store(0), Push(f1), Push(f2), Take(1), Store(1), Load(0), Take(0), Store(0)]
  }

  lemma StepsTo(s: State, steps: seq<Step>, s': State, step: Step)
    requires Run(s, steps) == Some(s') && 0 < |s'.slots| && Enabled(s', step)
    ensures Run(s, steps + [step]) == Some(Apply(s', step))
  {
    LastOf(steps, step);
  }

  lemma LastOf(steps: seq<Step>, step: Step)
    ensures var all := steps + [step];
            all != [] && all[|all| - 1] == step && all[..|all| - 1] == steps
  {
  }

  lemma BothLoad(f0: Frame, f1: Frame, f2: Frame)
    ensures Run(Start(2, 2), Reordering(f0, f1, f2)[..3])
            == Some(State([Some(f0), None], 1, 0, [Loaded(0), Loaded(0)], [f0], []))
  {
    var all, s0 := Reordering(f0, f1, f2), Start(2, 2);
    var s1 := State([Some(f0), None], 1, 0, [Idle, Idle], [f0], []);
    var s2 := State([Some(f0), None], 1, 0, [Loaded(0), Idle], [f0], []);
    assert s0 == State([None, None], 0, 0, [Idle, Idle], [], []);
    PrefixStep(all, 0);
    StepsTo(s0, all[..0], s0, all[0]);
    assert Apply(s0, all[0]) == s1;
    PrefixStep(all, 1);
    StepsTo(s0, all[..1], s1, all[1]);
    assert Apply(s1, all[1]) == s2;
    PrefixStep(all, 2);
    StepsTo(s0, all[..2], s2, all[2]);
    assert Apply(s2, all[2]) == State([Some(f0), None], 1, 0, [Loaded(0), Loaded(0)], [f0], []);
  }

  lemma FirstPop(f0: Frame, f1: Frame, f2: Frame)
    ensures Run(Start(2, 2), Reordering(f0, f1, f2)[..5])
            == Some(State([None, None], 1, 1, [Idle, Loaded(0)], [f0], [Some(f0)]))
  {
    var all, s0 := Reordering(f0, f1, f2), Start(2, 2);
    var s3 := State([Some(f0), None], 1, 0, [Loaded(0), Loaded(0)], [f0], []);
    var s4 := State([None, None], 1, 0, [Holding(0, Some(f0)), Loaded(0)], [f0], []);
    BothLoad(f0, f1, f2);
    PrefixStep(all, 3);
    StepsTo(s0, all[..3], s3, all[3]);
    assert Apply(s3, all[3]) == s4;
    PrefixStep(all, 4);
    StepsTo(s0, all[..4], s4, all[4]);
    assert Apply(s4, all[4]) == State([None, None], 1, 1, [Idle, Loaded(0)], [f0], [Some(f0)]);
  }

  lemma PrefixStep(all: seq<Step>, k: nat)
    requires k < |all|
    ensures all[..k] + [all[k]] == all[..k + 1]
  {
  }

  lemma LatePop(f0: Frame, f1: Frame, f2: Frame)
    ensures Run(Start(2, 2), Reordering(f0, f1, f2)[..9])
            == Some(State([None, Some(f1)], 3, 1, [Idle, Idle], [f0, f1, f2], [Some(f0), Some(f2)]))
  {
    var all, s0 := Reordering(f0, f1, f2), Start(2, 2);
    var s5 := State([None, None], 1, 1, [Idle, Loaded(0)], [f0], [Some(f0)]);
    var s7 := State([Some(f2), Some(f1)], 3, 1, [Idle, Loaded(0)], [f0, f1, f2], [Some(f0)]);
    FirstPop(f0, f1, f2);
    PrefixStep(all, 5);
    StepsTo(s0, all[..5], s5, all[5]);
    PrefixStep(all, 6);
    StepsTo(s0, all[..6], Apply(s5, all[5]), all[6]);
    assert Apply(Apply(s5, all[5]), all[6]) == s7;
    PrefixStep(all, 7);
    StepsTo(s0, all[..7], s7, all[7]);
    PrefixStep(all, 8);
    var s8 := State([None, Some(f1)], 3, 1, [Idle, Holding(0, Some(f2))], [f0, f1, f2], [Some(f0)]);
    assert Apply(s7, all[7]) == s8;
    StepsTo(s0, all[..8], s8, all[8]);
    assert Apply(s8, all[8]) == State([None, Some(f1)], 3, 1, [Idle, Idle], [f0, f1, f2], [Some(f0), Some(f2)]);
  }

  lemma OverlapReorders(f0: Frame, f1: Frame, f2: Frame)
    ensures var r := Run(Start(2, 2), Reordering(f0, f1, f2));
            && r.Some? && r.value.pushed == [f0, f1, f2]
            && r.value.popped == [Some(f0), Some(f2), Some(f1)] && r.value.tail == 2 && r.value.head == 3
  {
    var all, s0 := Reordering(f0, f1, f2), Start(2, 2);
    var s9 := State([None, Some(f1)], 3, 1, [Idle, Idle], [f0, f1, f2], [Some(f0), Some(f2)]);
    LatePop(f0, f1, f2);
    PrefixStep(all, 9);
    StepsTo(s0, all[..9], s9, all[9]);
    PrefixStep(all, 10);
    StepsTo(s0, all[..10], Apply(s9, all[9]), all[10]);
    PrefixStep(all, 11);
    StepsTo(s0, all[..11], Apply(Apply(s9, all[9]), all[10]), all[11]);
    assert all[..12] == all;
  }
}
