/** The capture loop, the three queues, the wake-up flag with its mutex and condition variable, and the
    publisher loop, as one state machine over their steps.

    A queue operation is one step here; RingMachine shows that the ring buffer behaves that way. What
    relaxed memory still allows is kept: a push may be refused on a stale view, and the consumer may
    find a queue empty unless a push is ordered before it by the mutex. */
module PipelineMachine {
  import opened Types
  import opened Counter64

  /** The capture thread: inside a tick it is at the group with the given number. */
  datatype Capture =
    | BetweenTicks
    | AtGroup(i: nat)       // before the activity test of GROUPS[i]
    | Pushed(i: nat)        // try_push returned, flag not yet touched
    | FlagLocked(i: nat)    // holds the mutex
    | FlagSet(i: nat)       // flag stored, still holds the mutex
    | ToNotify(i: nat)      // mutex released, notify_one still to come

  /** The publisher thread inside pop_all. */
  datatype Consumer =
    | Outside
    | Scan(second: bool, i: nat)    // popping GROUPS[i], before or after the wait
    | ToLock
    | Checking(timedOut: bool)      // holds the mutex, about to evaluate the predicate
    | Asleep
    | Waking(timedOut: bool)        // woken, must take the mutex again
    | Clearing                      // holds the mutex, about to clear the flag
    | Unlocking

  datatype Owner = Free | ByCapture | ByConsumer

  /** A frame that left a queue: handed to the publisher, or thrown away by a drain. */
  datatype Removal = Removal(frame: Frame, handed: bool)

  datatype State = State(
    capacity: nat,
    queues: PerGroup<seq<Frame>>,
    flag: bool,
    lock: Owner,
    capture: Capture,
    consumer: Consumer,
    out: seq<Frame>,                      // the vector pop_all fills
    sent: seq<Frame>,                     // what the publisher loop has passed to send_group
    stamps: seq<(int, int)>,              // the timestamp of every tick started
    ticks: nat,                           // ticks finished
    attempts: PerGroup<nat>,
    dropped: PerGroup<nat>,
    accepted: PerGroup<seq<Frame>>,       // every frame a queue took, in order
    removed: PerGroup<seq<Removal>>,      // every frame that left a queue, in order
    released: PerGroup<nat>,              // accepted frames ordered before the capture thread's last unlock
    visible: PerGroup<nat>)               // accepted frames ordered before the consumer's last lock

  datatype Step =
    | StartTick(sec: int, nsec: int) | SkipGroup | Accept(frame: Frame) | Refuse(frame: Frame)
    | LockFlag | SetFlag | UnlockFlag | Notify | EndTick
    | CallPopAll | PopItem | SeeEmpty | EndScan | TakeLock | Check | WakeUp(timedOut: bool) | Relock
    | ClearFlag | Unlock
    | DrainItem(g: Group)

  /** A frame as build_frame makes it for one tick. */
  predicate TickFrame(f: Frame, g: Group, index: nat, sec: int, nsec: int) {
    && f.group == g && f.frameIndex == index && f.pairId == index
    && f.tsSec == sec && f.tsNsec == nsec
  }

  ghost predicate Shape(s: State) {
    && (s.capture.AtGroup? ==> s.capture.i <= 3)
    && (!s.capture.BetweenTicks? && !s.capture.AtGroup? ==> s.capture.i < 3)
    && (s.consumer.Scan? ==> s.consumer.i <= 3)
    && |s.stamps| == s.ticks + (if s.capture.BetweenTicks? then 0 else 1)
  }

  function Initial(capacity: nat): State {
    var none := PerGroup(0, 0, 0);
    State(capacity, PerGroup([], [], []), false, Free, BetweenTicks, Outside, [], [], [], 0,
          none, none, PerGroup([], [], []), PerGroup([], [], []), none, none)
  }

  /** The frame offered to the queue at this point of the tick. */
  ghost predicate Offered(s: State, frame: Frame)
    requires Shape(s)
  {
    && s.capture.AtGroup? && s.capture.i < 3
    && TickFrame(frame, GROUPS[s.capture.i], Wrap(s.ticks), s.stamps[s.ticks].0, s.stamps[s.ticks].1)
    && frame.bundles != []
  }

  ghost predicate Enabled(s: State, step: Step)
    requires Shape(s)
  {
    match step
    case StartTick(_, _) => s.capture.BetweenTicks?
    case SkipGroup => s.capture.AtGroup? && s.capture.i < 3
    case Accept(frame) => Offered(s, frame) && |s.queues.At(GROUPS[s.capture.i])| < s.capacity
    case Refuse(frame) => Offered(s, frame)
    case LockFlag => s.capture.Pushed? && s.lock.Free?
    case SetFlag => s.capture.FlagLocked?
    case UnlockFlag => s.capture.FlagSet?
    case Notify => s.capture.ToNotify?
    case EndTick => s.capture == AtGroup(3)
    case CallPopAll => s.consumer.Outside?
    case PopItem => s.consumer.Scan? && s.consumer.i < 3 && s.queues.At(GROUPS[s.consumer.i]) != []
    case SeeEmpty =>
      && s.consumer.Scan? && s.consumer.i < 3
      && var g := GROUPS[s.consumer.i]; s.visible.At(g) <= |s.removed.At(g)|
    case EndScan => s.consumer.Scan? && s.consumer.i == 3
    case TakeLock => s.consumer.ToLock? && s.lock.Free?
    case Check => s.consumer.Checking?
    case WakeUp(_) => s.consumer.Asleep?
    case Relock => s.consumer.Waking? && s.lock.Free?
    case ClearFlag => s.consumer.Clearing?
    case Unlock => s.consumer.Unlocking?
    case DrainItem(g) => s.queues.At(g) != []
  }

  function Count(logs: PerGroup<seq<Frame>>): PerGroup<nat> {
    PerGroup(|logs.visual2D|, |logs.visual3D|, |logs.sensorData|)
  }

  function RemoveFirst(s: State, g: Group, handed: bool): State
    requires s.queues.At(g) != []
  {
    var q := s.queues.At(g);
    s.(queues := Put(s.queues, g, q[1..]),
       removed := Put(s.removed, g, s.removed.At(g) + [Removal(q[0], handed)]))
  }

  function Apply(s: State, step: Step): State
    requires Shape(s) && Enabled(s, step)
  {
    match step
    case StartTick(sec, nsec) => s.(capture := AtGroup(0), stamps := s.stamps + [(sec, nsec)])
    case SkipGroup => s.(capture := AtGroup(s.capture.i + 1))
    case Accept(frame) =>
      var g := GROUPS[s.capture.i];
      s.(capture := Pushed(s.capture.i),
         attempts := Put(s.attempts, g, s.attempts.At(g) + 1),
         queues := Put(s.queues, g, s.queues.At(g) + [frame]),
         accepted := Put(s.accepted, g, s.accepted.At(g) + [frame]))
    case Refuse(frame) =>
      var g := GROUPS[s.capture.i];
      s.(capture := Pushed(s.capture.i),
         attempts := Put(s.attempts, g, s.attempts.At(g) + 1),
         dropped := Put(s.dropped, g, s.dropped.At(g) + 1))
    case LockFlag => s.(capture := FlagLocked(s.capture.i), lock := ByCapture)
    case SetFlag => s.(capture := FlagSet(s.capture.i), flag := true)
    case UnlockFlag => s.(capture := ToNotify(s.capture.i), lock := Free, released := Count(s.accepted))
    case Notify =>
      s.(capture := AtGroup(s.capture.i + 1),
         consumer := if s.consumer.Asleep? then Waking(false) else s.consumer)
    case EndTick => s.(capture := BetweenTicks, ticks := s.ticks + 1)
    case CallPopAll => s.(consumer := Scan(false, 0), out := [])
    case PopItem =>
      var g := GROUPS[s.consumer.i];
      RemoveFirst(s, g, true).(out := s.out + [s.queues.At(g)[0]])
    case SeeEmpty => s.(consumer := Scan(s.consumer.second, s.consumer.i + 1))
    case EndScan =>
      if s.consumer.second || s.out != [] then
        s.(consumer := Outside, sent := s.sent + s.out, out := [])
      else
        s.(consumer := ToLock)
    case TakeLock => s.(consumer := Checking(false), lock := ByConsumer, visible := s.released)
    case Check =>
      if s.flag || s.consumer.timedOut then s.(consumer := Clearing)
      else s.(consumer := Asleep, lock := Free)
    case WakeUp(timedOut) => s.(consumer := Waking(timedOut))
    case Relock => s.(consumer := Checking(s.consumer.timedOut), lock := ByConsumer, visible := s.released)
    case ClearFlag => s.(consumer := Unlocking, flag := false)
    case Unlock => s.(consumer := Scan(true, 0), lock := Free)
    case DrainItem(g) => RemoveFirst(s, g, false)
  }

  // ---------------------------------------------------------------------------
  // No lost wake-up

  /** The capture thread is inside push, past try_push and before its unlock. */
  predicate Pending(c: Capture) { c.Pushed? || c.FlagLocked? || c.FlagSet? }

  /** The capture thread still has to notify for a push it has made. */
  predicate WillNotify(c: Capture) { Pending(c) || c.ToNotify? }

  predicate ScannedUpTo(s: State, i: nat) requires i <= 3 {
    forall j :: 0 <= j < i ==> s.visible.At(GROUPS[j]) <= |s.removed.At(GROUPS[j])|
  }

  ghost predicate Wakeup(s: State)
    requires Shape(s)
  {
    && (s.lock.ByCapture? <==> s.capture.FlagLocked? || s.capture.FlagSet?)
    && (s.lock.ByConsumer? <==> s.consumer.Checking? || s.consumer.Clearing? || s.consumer.Unlocking?)
    && (s.capture.FlagSet? ==> s.flag)
    && (forall g :: s.visible.At(g) <= s.released.At(g) <= |s.accepted.At(g)|)
    && (forall g :: s.released.At(g) < |s.accepted.At(g)| ==> Pending(s.capture))
    && (forall g :: s.visible.At(g) < s.released.At(g) ==> s.flag)
    && (s.lock.ByConsumer? ==> s.visible == s.released)
    && (s.consumer.Scan? && !s.consumer.second ==> ScannedUpTo(s, s.consumer.i))
    && (s.consumer.ToLock? ==> ScannedUpTo(s, 3))
    && ((s.consumer.Checking? || s.consumer.Asleep? || s.consumer.Waking?) && !s.flag ==>
          forall g :: s.released.At(g) <= |s.removed.At(g)|)
    && (s.consumer.Asleep? && s.flag ==> s.capture.FlagSet? || s.capture.ToNotify?)
  }

  // ---------------------------------------------------------------------------
  // Conservation and order

  function Frames(r: seq<Removal>): seq<Frame> {
    if r == [] then [] else Frames(r[..|r| - 1]) + [r[|r| - 1].frame]
  }

  /** The frames handed to the publisher among those removed. */
  function Handed(r: seq<Removal>): seq<Frame> {
    if r == [] then []
    else Handed(r[..|r| - 1]) + (if r[|r| - 1].handed then [r[|r| - 1].frame] else [])
  }

  ghost predicate Conserved(s: State) {
    && (s.consumer.Outside? ==> s.out == [])
    && forall g :: ConservedAt(s, g)
  }

  ghost predicate ConservedAt(s: State, g: Group) {
    && |s.queues.At(g)| <= s.capacity
    && s.accepted.At(g) == Frames(s.removed.At(g)) + s.queues.At(g)
    && OfGroup(s.sent + s.out, g) == Handed(s.removed.At(g))
    && (forall f :: f in s.accepted.At(g) ==> f.group == g)
    && s.attempts.At(g) == |s.accepted.At(g)| + s.dropped.At(g)
  }

  ghost predicate Increasing(fs: seq<Frame>) {
    forall a, b :: 0 <= a < b < |fs| ==> fs[a].frameIndex < fs[b].frameIndex
  }

  /** The number of the tick whose frame for the group with number k may come next. */
  predicate Settled(s: State, k: nat) {
    s.capture.BetweenTicks? || k > s.capture.i || (k == s.capture.i && s.capture.AtGroup?)
  }

  /** Holds while the 64-bit frame counter has not wrapped. */
  ghost predicate Ordered(s: State)
    requires Shape(s)
  {
    && (forall g :: Increasing(s.accepted.At(g)))
    && (forall g, f :: f in s.accepted.At(g) ==>
          && f.frameIndex < |s.stamps|
          && TickFrame(f, g, f.frameIndex, s.stamps[f.frameIndex].0, s.stamps[f.frameIndex].1))
    && (forall k, f :: 0 <= k < 3 && f in s.accepted.At(GROUPS[k]) && Settled(s, k) ==> f.frameIndex < s.ticks)
  }

  ghost predicate Inv(s: State) {
    Shape(s) && Wakeup(s) && Conserved(s) && (s.ticks < WORD ==> Ordered(s))
  }

  lemma InitialHolds(capacity: nat)
    ensures Inv(Initial(capacity))
  {
  }

  lemma EveryGroupListed(g: Group)
    ensures exists j :: 0 <= j < 3 && GROUPS[j] == g
  {
    assert GROUPS[0] == Visual2D && GROUPS[1] == Visual3D && GROUPS[2] == SensorData;
  }

  predicate ByCaptureThread(step: Step) {
    step.StartTick? || step.SkipGroup? || step.Accept? || step.Refuse? || step.LockFlag? || step.SetFlag?
    || step.UnlockFlag? || step.Notify? || step.EndTick?
  }

  lemma CaptureKeepsWakeup(s: State, step: Step)
    requires Shape(s) && Wakeup(s) && Enabled(s, step) && ByCaptureThread(step)
    ensures Shape(Apply(s, step)) && Wakeup(Apply(s, step))
  {
    match step
    case Accept(frame) =>
    case UnlockFlag =>
    case _ =>
  }

  lemma LockKeepsWakeup(s: State, step: Step)
    requires Shape(s) && Wakeup(s) && Enabled(s, step) && (step.TakeLock? || step.Relock?)
    ensures Wakeup(Apply(s, step))
  {
    if step.TakeLock? {
      forall g | !s.flag
        ensures s.released.At(g) <= |s.removed.At(g)|
      {
        EveryGroupListed(g);
      }
    }
  }

  lemma RemovalKeepsWakeup(s: State, step: Step)
    requires Shape(s) && Wakeup(s) && Enabled(s, step) && (step.PopItem? || step.DrainItem?)
    ensures Shape(Apply(s, step)) && Wakeup(Apply(s, step))
  {
    var s' := Apply(s, step);
    assert forall g :: |s.removed.At(g)| <= |s'.removed.At(g)|;
  }

  lemma WakeupKept(s: State, step: Step)
    requires Shape(s) && Wakeup(s) && Enabled(s, step)
    ensures Shape(Apply(s, step)) && Wakeup(Apply(s, step))
  {
    if ByCaptureThread(step) {
      CaptureKeepsWakeup(s, step);
    } else if step.TakeLock? || step.Relock? {
      LockKeepsWakeup(s, step);
    } else if step.PopItem? || step.DrainItem? {
      RemovalKeepsWakeup(s, step);
    } else {
      ConsumerKeepsWakeup(s, step);
    }
  }

  lemma ConsumerKeepsWakeup(s: State, step: Step)
    requires Shape(s) && Wakeup(s) && Enabled(s, step)
    requires step.CallPopAll? || step.SeeEmpty? || step.EndScan? || step.Check? || step.WakeUp? || step.ClearFlag? || step.Unlock?
    ensures Shape(Apply(s, step)) && Wakeup(Apply(s, step))
  {
    if step.SeeEmpty? {
      assert s.consumer.Scan? && !s.consumer.second ==> ScannedUpTo(s, s.consumer.i + 1);
    }
  }

  lemma FramesAppend(r: seq<Removal>, x: Removal)
    ensures Frames(r + [x]) == Frames(r) + [x.frame]
    ensures Handed(r + [x]) == Handed(r) + (if x.handed then [x.frame] else [])
  {
    assert (r + [x])[..|r|] == r;
  }

  lemma RemovalConserves(s: State, g: Group, handed: bool)
    requires ConservedAt(s, g) && s.queues.At(g) != []
    ensures var s' := RemoveFirst(s, g, handed);
            && s'.accepted.At(g) == Frames(s'.removed.At(g)) + s'.queues.At(g)
            && Handed(s'.removed.At(g)) == Handed(s.removed.At(g)) + (if handed then [s.queues.At(g)[0]] else [])
            && s.queues.At(g)[0].group == g
  {
    var f := s.queues.At(g)[0];
    FramesAppend(s.removed.At(g), Removal(f, handed));
    assert s.queues.At(g) == [f] + s.queues.At(g)[1..];
    assert f in s.accepted.At(g);
  }

  lemma PopConserves(s: State)
    requires Shape(s) && Conserved(s) && Enabled(s, PopItem)
    ensures Conserved(Apply(s, PopItem))
  {
    var s' := Apply(s, PopItem);
    var g := GROUPS[s.consumer.i];
    var f := s.queues.At(g)[0];
    assert ConservedAt(s, g);
    RemovalConserves(s, g, true);
    assert s'.sent + s'.out == (s.sent + s.out) + [f];
    forall o
      ensures ConservedAt(s', o)
    {
      assert ConservedAt(s, o);
      OfGroupAppend(s.sent + s.out, f, o);
    }
  }

  lemma AcceptConserves(s: State, frame: Frame)
    requires Shape(s) && Conserved(s) && Enabled(s, Accept(frame))
    ensures Conserved(Apply(s, Accept(frame)))
  {
    var s' := Apply(s, Accept(frame));
    var g := GROUPS[s.capture.i];
    assert s'.sent + s'.out == s.sent + s.out;
    forall o
      ensures ConservedAt(s', o)
    {
      assert ConservedAt(s, o);
    }
  }

  lemma QuietConserves(s: State, step: Step)
    requires Shape(s) && Conserved(s) && Enabled(s, step)
    requires !step.PopItem? && !step.DrainItem? && !step.Accept? && !step.Refuse?
    ensures Conserved(Apply(s, step))
  {
    var s' := Apply(s, step);
    assert s'.queues == s.queues && s'.removed == s.removed && s'.accepted == s.accepted
        && s'.attempts == s.attempts && s'.dropped == s.dropped;
    assert s'.sent + s'.out == s.sent + s.out;
    forall o
      ensures ConservedAt(s', o)
    {
      assert ConservedAt(s, o);
    }
  }

  lemma RefuseConserves(s: State, frame: Frame)
    requires Shape(s) && Conserved(s) && Enabled(s, Refuse(frame))
    ensures Conserved(Apply(s, Refuse(frame)))
  {
    var s' := Apply(s, Refuse(frame));
    assert s'.sent + s'.out == s.sent + s.out;
    forall o
      ensures ConservedAt(s', o)
    {
      assert ConservedAt(s, o);
    }
  }

  lemma DrainConserves(s: State, g: Group)
    requires Shape(s) && Conserved(s) && Enabled(s, DrainItem(g))
    ensures Conserved(Apply(s, DrainItem(g)))
  {
    var s' := Apply(s, DrainItem(g));
    assert ConservedAt(s, g);
    RemovalConserves(s, g, false);
    assert s'.sent + s'.out == s.sent + s.out;
    forall o
      ensures ConservedAt(s', o)
    {
      assert ConservedAt(s, o);
    }
  }

  lemma ConservedKept(s: State, step: Step)
    requires Shape(s) && Conserved(s) && Enabled(s, step)
    ensures Conserved(Apply(s, step))
  {
    match step
    case PopItem => PopConserves(s);
    case DrainItem(g) => DrainConserves(s, g);
    case Accept(frame) => AcceptConserves(s, frame);
    case Refuse(frame) => RefuseConserves(s, frame);
    case _ => QuietConserves(s, step);
  }

  lemma OrderedKept(s: State, step: Step)
    requires Inv(s) && Enabled(s, step) && Apply(s, step).ticks < WORD
    ensures Shape(Apply(s, step)) && Ordered(Apply(s, step))
  {
    if step.Accept? {
      AcceptOrdered(s, step.frame);
    } else {
      OthersOrdered(s, step);
    }
  }

  lemma OthersOrdered(s: State, step: Step)
    requires Shape(s) && Ordered(s) && Enabled(s, step) && !step.Accept?
    ensures Shape(Apply(s, step)) && Ordered(Apply(s, step))
  {
    var s' := Apply(s, step);
    assert s'.accepted == s.accepted && s.stamps <= s'.stamps;
    forall g, f | f in s'.accepted.At(g)
      ensures f.frameIndex < |s'.stamps|
      ensures TickFrame(f, g, f.frameIndex, s'.stamps[f.frameIndex].0, s'.stamps[f.frameIndex].1)
    {
      assert f in s.accepted.At(g);
    }
    forall k, f | 0 <= k < 3 && f in s'.accepted.At(GROUPS[k]) && Settled(s', k)
      ensures f.frameIndex < s'.ticks
    {
      assert f in s.accepted.At(GROUPS[k]);
      if step.EndTick? {
        assert f.frameIndex < |s.stamps|;
      } else {
        assert Settled(s, k);
      }
    }
  }

  lemma AcceptOrdered(s: State, frame: Frame)
    requires Shape(s) && Ordered(s) && Enabled(s, Accept(frame)) && s.ticks < WORD
    ensures Shape(Apply(s, Accept(frame))) && Ordered(Apply(s, Accept(frame)))
  {
    var s' := Apply(s, Accept(frame));
    var i := s.capture.i;
    var g := GROUPS[i];
    assert frame.frameIndex == s.ticks;
    assert forall f :: f in s.accepted.At(g) ==> f.frameIndex < s.ticks;
    IncreasingAppend(s.accepted.At(g), frame);
    forall o, f | f in s'.accepted.At(o)
      ensures f.frameIndex < |s'.stamps|
      ensures TickFrame(f, o, f.frameIndex, s'.stamps[f.frameIndex].0, s'.stamps[f.frameIndex].1)
    {
      assert f in s.accepted.At(o) || (o == g && f == frame);
    }
    forall k, f | 0 <= k < 3 && f in s'.accepted.At(GROUPS[k]) && Settled(s', k)
      ensures f.frameIndex < s'.ticks
    {
      GroupsDiffer(k, i);
      assert f in s.accepted.At(GROUPS[k]) && Settled(s, k);
    }
  }

  lemma IncreasingAppend(fs: seq<Frame>, f: Frame)
    requires Increasing(fs) && forall x :: x in fs ==> x.frameIndex < f.frameIndex
    ensures Increasing(fs + [f])
  {
  }

  lemma GroupsDiffer(a: nat, b: nat)
    requires a < 3 && b < 3 && a != b
    ensures GROUPS[a] != GROUPS[b]
  {
  }

  // ---------------------------------------------------------------------------
  // Whole runs

  ghost predicate Schedule(s: State, steps: seq<Step>)
    decreases |steps|
  {
    steps != [] ==> Shape(s) && Enabled(s, steps[0]) && Schedule(Apply(s, steps[0]), steps[1..])
  }

  ghost function Run(s: State, steps: seq<Step>): State
    requires Schedule(s, steps)
    decreases |steps|
  {
    if steps == [] then s else Run(Apply(s, steps[0]), steps[1..])
  }

  lemma {:induction false} RunKeeps(s: State, steps: seq<Step>)
    requires Inv(s) && Schedule(s, steps)
    ensures Inv(Run(s, steps))
    decreases |steps|
  {
    if steps != [] {
      var s' := Apply(s, steps[0]);
      WakeupKept(s, steps[0]);
      ConservedKept(s, steps[0]);
      if s'.ticks < WORD { OrderedKept(s, steps[0]); }
      RunKeeps(s', steps[1..]);
    }
  }

  /** The steps by which the capture thread finishes the push it is in. */
  function FinishPush(c: Capture): seq<Step> {
    match c
    case Pushed(_) => [LockFlag, SetFlag, UnlockFlag, Notify]
    case FlagLocked(_) => [SetFlag, UnlockFlag, Notify]
    case FlagSet(_) => [UnlockFlag, Notify]
    case ToNotify(_) => [Notify]
    case _ => []
  }

  /** Whenever the publisher sleeps although a queue holds a frame, the capture thread is inside the
      push that will wake it; with the flag down it has not even stored the flag yet. */
  lemma NoLostWakeup(capacity: nat, steps: seq<Step>, g: Group)
    requires Schedule(Initial(capacity), steps)
    ensures var s := Run(Initial(capacity), steps);
            s.consumer.Asleep? && s.queues.At(g) != [] ==>
              && WillNotify(s.capture)
              && (!s.flag ==> Pending(s.capture))
              && Schedule(s, FinishPush(s.capture))
              && Run(s, FinishPush(s.capture)).consumer == Waking(false)
  {
    var s := Run(Initial(capacity), steps);
    InitialHolds(capacity);
    RunKeeps(Initial(capacity), steps);
    if s.consumer.Asleep? && s.queues.At(g) != [] {
      FramesLength(s.removed.At(g));
      assert ConservedAt(s, g);
      assert |s.removed.At(g)| < |s.accepted.At(g)|;
      FinishPushWakes(s);
    }
  }

  lemma {:induction false} FramesLength(r: seq<Removal>)
    ensures |Frames(r)| == |r|
  {
    if r != [] { FramesLength(r[..|r| - 1]); }
  }

  lemma {:induction false} FinishPushWakes(s: State)
    requires Shape(s) && Wakeup(s) && s.consumer.Asleep? && WillNotify(s.capture)
    ensures Schedule(s, FinishPush(s.capture))
    ensures Run(s, FinishPush(s.capture)).consumer == Waking(false)
    decreases |FinishPush(s.capture)|
  {
    var steps := FinishPush(s.capture);
    assert Enabled(s, steps[0]);
    WakeupKept(s, steps[0]);
    var s' := Apply(s, steps[0]);
    if s.capture.ToNotify? {
      assert steps[1..] == [];
    } else {
      assert steps[1..] == FinishPush(s'.capture);
      FinishPushWakes(s');
    }
  }

  /** Nothing is lost or duplicated: per group, what the queue took is what left it followed by what
      it holds, and what left it through pop_all is what reached the publisher, in that order. */
  lemma EveryFrameAccountedFor(capacity: nat, steps: seq<Step>, g: Group)
    requires Schedule(Initial(capacity), steps)
    ensures var s := Run(Initial(capacity), steps);
            && s.accepted.At(g) == Frames(s.removed.At(g)) + s.queues.At(g)
            && OfGroup(s.sent + s.out, g) == Handed(s.removed.At(g))
            && s.attempts.At(g) == |s.accepted.At(g)| + s.dropped.At(g)
            && |s.queues.At(g)| <= s.capacity
  {
    InitialHolds(capacity);
    RunKeeps(Initial(capacity), steps);
    assert ConservedAt(Run(Initial(capacity), steps), g);
  }

  lemma {:induction false} HandedIncreasing(r: seq<Removal>)
    requires Increasing(Frames(r))
    ensures Increasing(Handed(r))
    ensures forall f :: f in Handed(r) ==> f in Frames(r)
  {
    if r != [] {
      var init, last := r[..|r| - 1], r[|r| - 1];
      assert Frames(r) == Frames(init) + [last.frame];
      assert forall a, b :: 0 <= a < b < |Frames(init)| ==>
        Frames(r)[a] == Frames(init)[a] && Frames(r)[b] == Frames(init)[b];
      HandedIncreasing(init);
      forall f | f in Frames(init)
        ensures f.frameIndex < last.frame.frameIndex
      {
        var a :| 0 <= a < |Frames(init)| && Frames(init)[a] == f;
        assert Frames(r)[a].frameIndex < Frames(r)[|Frames(init)|].frameIndex;
      }
    }
  }

  lemma {:induction false} OfGroupMember(fs: seq<Frame>, f: Frame)
    requires f in fs
    ensures f in OfGroup(fs, f.group)
  {
    var init, last := fs[..|fs| - 1], fs[|fs| - 1];
    if last != f { OfGroupMember(init, f); }
  }

  lemma {:induction false} OfGroupPrefix(fs: seq<Frame>, more: seq<Frame>, g: Group)
    ensures OfGroup(fs, g) <= OfGroup(fs + more, g)
    decreases |more|
  {
    if more == [] {
      assert fs + more == fs;
    } else {
      var init := more[..|more| - 1];
      OfGroupPrefix(fs, init, g);
      assert fs + more == (fs + init) + [more[|more| - 1]];
      OfGroupAppend(fs + init, more[|more| - 1], g);
    }
  }

  /** What subscribers of one group can rely on, whatever is dropped or drained. */
  lemma PublishedInOrder(capacity: nat, steps: seq<Step>, g: Group)
    requires Schedule(Initial(capacity), steps)
    requires Run(Initial(capacity), steps).ticks < WORD
    ensures Increasing(OfGroup(Run(Initial(capacity), steps).sent, g))
  {
    var s := Run(Initial(capacity), steps);
    InitialHolds(capacity);
    RunKeeps(Initial(capacity), steps);
    assert ConservedAt(s, g);
    var taken := Frames(s.removed.At(g));
    forall a, b | 0 <= a < b < |taken|
      ensures taken[a].frameIndex < taken[b].frameIndex
    {
      assert taken[a] == s.accepted.At(g)[a] && taken[b] == s.accepted.At(g)[b];
    }
    HandedIncreasing(s.removed.At(g));
    OfGroupPrefix(s.sent, s.out, g);
    var all, part := OfGroup(s.sent + s.out, g), OfGroup(s.sent, g);
    assert forall a :: 0 <= a < |part| ==> part[a] == all[a];
  }

  lemma SentWasAccepted(s: State, f: Frame)
    requires Inv(s) && s.ticks < WORD && f in s.sent
    ensures f in s.accepted.At(f.group)
  {
    assert f in s.sent + s.out;
    OfGroupMember(s.sent + s.out, f);
    var g := f.group;
    assert ConservedAt(s, g);
    var taken := Frames(s.removed.At(g));
    assert forall a :: 0 <= a < |taken| ==> taken[a] == s.accepted.At(g)[a];
    HandedIncreasing(s.removed.At(g));
  }

  /** Two frames of one group keep their order when the other groups are left out. */
  lemma {:induction false} OfGroupPlaces(fs: seq<Frame>, i: nat, j: nat) returns (a: nat, b: nat)
    requires i < j < |fs| && fs[i].group == fs[j].group
    ensures a < b < |OfGroup(fs, fs[i].group)|
    ensures OfGroup(fs, fs[i].group)[a] == fs[i] && OfGroup(fs, fs[i].group)[b] == fs[j]
  {
    var init := fs[..|fs| - 1];
    if j < |fs| - 1 {
      a, b := OfGroupPlaces(init, i, j);
    } else {
      assert init[i] in init;
      OfGroupMember(init, init[i]);
      a :| 0 <= a < |OfGroup(init, fs[i].group)| && OfGroup(init, fs[i].group)[a] == fs[i];
      b := |OfGroup(init, fs[i].group)|;
    }
  }

  /** A pair id names one capture tick: two frames sent with one pair id belong to different groups and
      carry one timestamp, so no (group, pair_id) is ever sent twice. */
  lemma PairIdsIdentifyTicks(capacity: nat, steps: seq<Step>, i: nat, j: nat)
    requires Schedule(Initial(capacity), steps)
    requires Run(Initial(capacity), steps).ticks < WORD
    requires var sent := Run(Initial(capacity), steps).sent; i < j < |sent| && sent[i].pairId == sent[j].pairId
    ensures var sent := Run(Initial(capacity), steps).sent;
            && sent[i].group != sent[j].group
            && sent[i].tsSec == sent[j].tsSec && sent[i].tsNsec == sent[j].tsNsec
  {
    var s := Run(Initial(capacity), steps);
    InitialHolds(capacity);
    RunKeeps(Initial(capacity), steps);
    SentWasAccepted(s, s.sent[i]);
    SentWasAccepted(s, s.sent[j]);
    if s.sent[i].group == s.sent[j].group {
      PublishedInOrder(capacity, steps, s.sent[i].group);
      var a, b := OfGroupPlaces(s.sent, i, j);
      assert false;
    }
  }

  // ---------------------------------------------------------------------------
  // The order within one batch

  function Rank(g: Group): nat {
    match g case Visual2D => 0 case Visual3D => 1 case SensorData => 2
  }

  /** 2D frames first, then 3D frames, then sensor frames. */
  predicate GroupByGroup(fs: seq<Frame>) {
    forall a, b :: 0 <= a < b < |fs| ==> Rank(fs[a].group) <= Rank(fs[b].group)
  }

  predicate Gathering(s: State) {
    && GroupByGroup(s.out)
    && (s.consumer.Scan? ==> forall a :: 0 <= a < |s.out| ==> Rank(s.out[a].group) <= s.consumer.i)
    && (!s.consumer.Scan? ==> s.out == [])
  }

  lemma GatheringKept(s: State, step: Step)
    requires Shape(s) && Conserved(s) && Gathering(s) && Enabled(s, step)
    ensures Gathering(Apply(s, step))
  {
    if step.PopItem? {
      var g := GROUPS[s.consumer.i];
      assert ConservedAt(s, g);
      assert s.queues.At(g)[0] in s.accepted.At(g);
      assert Rank(g) == s.consumer.i;
    }
  }

  lemma {:induction false} GatheringRuns(s: State, steps: seq<Step>)
    requires Inv(s) && Gathering(s) && Schedule(s, steps)
    ensures Gathering(Run(s, steps))
    decreases |steps|
  {
    if steps != [] {
      RunKeeps(s, steps[..1]);
      GatheringKept(s, steps[0]);
      assert steps[..1][1..] == [];
      assert Run(s, steps[..1]) == Apply(s, steps[0]);
      GatheringRuns(Apply(s, steps[0]), steps[1..]);
    }
  }

  /** Over every schedule, what one call of pop_all has gathered stands group by group. */
  lemma BatchInGroupOrder(capacity: nat, steps: seq<Step>)
    requires Schedule(Initial(capacity), steps)
    ensures GroupByGroup(Run(Initial(capacity), steps).out)
  {
    InitialHolds(capacity);
    GatheringRuns(Initial(capacity), steps);
  }

  // ---------------------------------------------------------------------------
  // The flag

  /** The flag has been stored and not been cleared since. */
  ghost predicate SetSince(steps: seq<Step>) {
    exists i :: 0 <= i < |steps| && steps[i].SetFlag? && forall j :: i < j < |steps| ==> !steps[j].ClearFlag?
  }

  /** The capture thread has given the mutex back inside push, and the flag has not been cleared since. */
  ghost predicate UnlockedSince(steps: seq<Step>) {
    exists i :: 0 <= i < |steps| && steps[i].UnlockFlag? && forall j :: i < j < |steps| ==> !steps[j].ClearFlag?
  }

  predicate NeverCleared(steps: seq<Step>) { forall j :: 0 <= j < |steps| ==> !steps[j].ClearFlag? }

  lemma SinceTail(steps: seq<Step>)
    requires steps != []
    ensures NeverCleared(steps) <==> !steps[0].ClearFlag? && NeverCleared(steps[1..])
    ensures SetSince(steps) <==> SetSince(steps[1..]) || (steps[0].SetFlag? && NeverCleared(steps[1..]))
    ensures UnlockedSince(steps) <==> UnlockedSince(steps[1..]) || (steps[0].UnlockFlag? && NeverCleared(steps[1..]))
  {
    var rest := steps[1..];
    assert forall j :: 0 <= j < |rest| ==> rest[j] == steps[j + 1];
    assert forall j :: 1 <= j < |steps| ==> steps[j] == rest[j - 1];
    if SetSince(rest) {
      var i :| 0 <= i < |rest| && rest[i].SetFlag? && forall j :: i < j < |rest| ==> !rest[j].ClearFlag?;
      assert steps[i + 1].SetFlag?;
    }
    if UnlockedSince(rest) {
      var i :| 0 <= i < |rest| && rest[i].UnlockFlag? && forall j :: i < j < |rest| ==> !rest[j].ClearFlag?;
      assert steps[i + 1].UnlockFlag?;
    }
    if SetSince(steps) {
      var i :| 0 <= i < |steps| && steps[i].SetFlag? && forall j :: i < j < |steps| ==> !steps[j].ClearFlag?;
      if i > 0 { assert rest[i - 1].SetFlag?; }
    }
    if UnlockedSince(steps) {
      var i :| 0 <= i < |steps| && steps[i].UnlockFlag? && forall j :: i < j < |steps| ==> !steps[j].ClearFlag?;
      if i > 0 { assert rest[i - 1].UnlockFlag?; }
    }
  }

  lemma {:induction false} FlagSteps(s: State, steps: seq<Step>)
    requires Schedule(s, steps)
    ensures Run(s, steps).flag <==> SetSince(steps) || (s.flag && NeverCleared(steps))
    ensures Run(s, steps).flag && !Run(s, steps).capture.FlagSet? ==>
              UnlockedSince(steps) || (s.flag && !s.capture.FlagSet? && NeverCleared(steps))
    decreases |steps|
  {
    if steps != [] {
      FlagSteps(Apply(s, steps[0]), steps[1..]);
      SinceTail(steps);
    }
  }

  /** Over every schedule: the flag is up exactly if it has been stored since it was last cleared, and once
      the storing push has given the mutex back, that unlock too lies after the last clearing. */
  lemma FlagMeansPush(capacity: nat, steps: seq<Step>)
    requires Schedule(Initial(capacity), steps)
    ensures Run(Initial(capacity), steps).flag <==> SetSince(steps)
    ensures var s := Run(Initial(capacity), steps); s.flag && !s.capture.FlagSet? ==> UnlockedSince(steps)
  {
    FlagSteps(Initial(capacity), steps);
  }
}
