/** The three queues behind one interface. What its threads do to each other is in PipelineMachine. */
module DataPipelineModule {
  import opened Types
  import opened Counter64
  import opened FrameQueue

  class DataPipeline {
    const q2d: ChannelFrameQueue
    const q3d: ChannelFrameQueue
    const qsensor: ChannelFrameQueue
    var notified: bool

    ghost function Repr(): set<object> {
      {this, q2d, q3d, qsensor, q2d.buffer, q3d.buffer, qsensor.buffer}
    }

    /** Three queues of the same capacity that share nothing. */
    ghost predicate WellFormed() {
      && q2d != q3d && q2d != qsensor && q3d != qsensor
      && q2d.buffer != q3d.buffer && q2d.buffer != qsensor.buffer && q3d.buffer != qsensor.buffer
      && q2d.capacity == q3d.capacity == qsensor.capacity
      && q2d.WellFormed() && q3d.WellFormed() && qsensor.WellFormed()
    }

    ghost predicate Valid()
      reads Repr()
    {
      WellFormed() && q2d.Valid() && q3d.Valid() && qsensor.Valid()
    }

    function Queue(g: Group): ChannelFrameQueue {
      match g
      case Visual2D => q2d
      case Visual3D => q3d
      case SensorData => qsensor
    }

    /** What the queues hold, oldest first. */
    ghost function Contents(): PerGroup<seq<Frame>>
      reads Repr()
    {
      PerGroup(q2d.contents, q3d.contents, qsensor.contents)
    }

    /** How many frames have left each queue. */
    ghost function Popped(): PerGroup<nat>
      reads Repr()
    {
      PerGroup(q2d.first, q3d.first, qsensor.first)
    }

    constructor (capacity: Word)
      ensures Valid() && fresh(Repr())
      ensures q2d.capacity == (if capacity < 1 then 1 else capacity)
      ensures Contents() == PerGroup([], [], []) && !notified
      ensures Popped() == PerGroup(0, 0, 0)
    {
      q2d := new ChannelFrameQueue(capacity);
      q3d := new ChannelFrameQueue(capacity);
      qsensor := new ChannelFrameQueue(capacity);
      notified := false;
    }

    /** The frame joins the queue of its group unless that queue is full; the flag goes up either way. The
        other two queues are left alone. */
    method Push(group: Group, frame: Frame) returns (ok: bool)
      requires WellFormed()
      modifies `notified, Queue(group), Queue(group).buffer
      ensures notified
      ensures ok <==> Distance(old(Queue(group).head), old(Queue(group).tail)) < q2d.capacity
      ensures Queue(group).buffer[..]
              == if ok then old(Queue(group).buffer[..])[old(Queue(group).head) % q2d.capacity := Some(frame)]
                 else old(Queue(group).buffer[..])
      ensures Queue(group).head == if ok then Wrap(old(Queue(group).head) + 1) else old(Queue(group).head)
      ensures Queue(group).tail == old(Queue(group).tail)
      ensures Contents() == if ok then Put(old(Contents()), group, old(Contents()).At(group) + [frame]) else old(Contents())
      ensures Popped() == old(Popped())
      ensures old(Valid()) ==> (ok <==> |old(Contents()).At(group)| < q2d.capacity)
      ensures old(Valid()) && (ok ==> old(Queue(group).CounterSafe())) ==> Valid()
    {
      match group {
        case Visual2D => ok := q2d.TryPush(frame);
        case Visual3D => ok := q3d.TryPush(frame);
        case SensorData => ok := qsensor.TryPush(frame);
      }
      notified := true;
    }

    /** Appends everything in one queue to the vector. */
    method PopInto(q: ChannelFrameQueue, out: seq<Frame>) returns (out': seq<Frame>)
      requires q.Valid()
      modifies q, q.buffer
      ensures q.Valid() && q.contents == []
      ensures out' == out + old(q.contents)
      ensures q.first == old(q.first + |q.contents|)
    {
      out' := out;
      var ok, f := q.TryPop();
      while ok
        invariant q.Valid()
        invariant ok <==> f.Some?
        invariant !ok ==> q.contents == []
        invariant out' + (if ok then [f.value] else []) + q.contents == out + old(q.contents)
        invariant q.first + |q.contents| == old(q.first + |q.contents|)
        decreases |q.contents|, ok
      {
        out' := out' + [f.value];
        ok, f := q.TryPop();
      }
    }

    method PopEach(out: seq<Frame>) returns (out': seq<Frame>)
      requires Valid()
      modifies Repr() - {this}
      ensures Valid() && Contents() == PerGroup([], [], [])
      ensures out' == out + old(q2d.contents + q3d.contents + qsensor.contents)
    {
      out' := PopInto(q2d, out);
      out' := PopInto(q3d, out');
      out' := PopInto(qsensor, out');
    }

    /** Empties the queues group by group. Only a call that finds nothing at first goes through the
        wait and lowers the flag. */
    method PopAll() returns (any: bool, out: seq<Frame>)
      requires Valid()
      modifies Repr()
      ensures Valid() && Contents() == PerGroup([], [], [])
      ensures out == old(q2d.contents + q3d.contents + qsensor.contents)
      ensures any <==> out != []
      ensures notified == (any && old(notified))
    {
      out := PopEach([]);
      if out != [] {
        return true, out;
      }
      notified := false;
      out := PopEach(out);
      any := out != [];
    }

    method DrainGroup(group: Group)
      requires Valid()
      modifies Queue(group), Queue(group).buffer
      ensures Valid() && notified == old(notified)
      ensures Contents() == Put(old(Contents()), group, [])
    {
      match group {
        case Visual2D => q2d.Clear();
        case Visual3D => q3d.Clear();
        case SensorData => qsensor.Clear();
      }
    }

    method Drain()
      requires Valid()
      modifies Repr()
      ensures Valid() && notified == old(notified)
      ensures Contents() == PerGroup([], [], [])
    {
      DrainGroup(Visual2D);
      DrainGroup(Visual3D);
      DrainGroup(SensorData);
    }

    /** How many frames each queue holds, as long as no other thread is at work. */
    method Sizes() returns (n: PerGroup<nat>)
      requires Valid()
      ensures n == PerGroup(|Contents().visual2D|, |Contents().visual3D|, |Contents().sensorData|)
    {
      var a := q2d.Size();
      var b := q3d.Size();
      var c := qsensor.Size();
      n := PerGroup(a, b, c);
    }
  }
}
