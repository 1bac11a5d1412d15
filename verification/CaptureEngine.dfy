/** The capture tick: which frames it builds, what they carry, and where it pushes them. */
module CaptureEngineModule {
  import opened Types
  import opened Counter64
  import opened ImageProbe
  import opened StereoPairs
  import opened RoundRobin
  import opened Channels
  import opened DataPipelineModule
  import StaleFlush
  import PipelineMachine

  // ---------------------------------------------------------------------------
  // The stereo payload: the length of the left image in four bytes, then both images

  /** The length is cast to 32 bits before it is written. */
  function StereoPayload(left: seq<byte>, right: seq<byte>): seq<byte> {
    LittleEndian(|left| % LENGTH_LIMIT) + left + right
  }

  function SplitPayload(data: seq<byte>): Option<(seq<byte>, seq<byte>)> {
    if |data| < 4 then None
    else
      var n := Le32(data, 0);
      if 4 + n > |data| then None else Some((data[4..4 + n], data[4 + n..]))
  }

  /** A reader gets both images back exactly when the length of the left one fits into 32 bits. */
  lemma StereoRoundTrip(left: seq<byte>, right: seq<byte>)
    ensures SplitPayload(StereoPayload(left, right)) == Some((left, right)) <==> |left| < 0x1_0000_0000
  {
    var n := |left| % LENGTH_LIMIT;
    var data := StereoPayload(left, right);
    assert data == LittleEndian(n) + (left + right);
    LittleEndianReads(data, 0, n);
    if |left| < LENGTH_LIMIT {
      assert data[4..4 + n] == left && data[4 + n..] == right;
    } else {
      assert |data[4..4 + n]| != |left|;
    }
  }

  lemma StereoPayloadInjective(l: seq<byte>, r: seq<byte>, l': seq<byte>, r': seq<byte>)
    requires |l| < LENGTH_LIMIT && |l'| < LENGTH_LIMIT && StereoPayload(l, r) == StereoPayload(l', r')
    ensures l == l' && r == r'
  {
    StereoRoundTrip(l, r);
    StereoRoundTrip(l', r');
  }

  /** The bytes are written into a buffer of the final size, as in CaptureEngine.cpp. */
  method WriteStereo(left: seq<byte>, right: seq<byte>) returns (data: seq<byte>)
    ensures data == StereoPayload(left, right)
  {
    var lsize := |left| % LENGTH_LIMIT;
    var buffer := new byte[4 + |left| + |right|];
    buffer[0] := (lsize % 0x100) as byte;
    buffer[1] := (lsize / 0x100 % 0x100) as byte;
    buffer[2] := (lsize / 0x1_0000 % 0x100) as byte;
    buffer[3] := (lsize / 0x100_0000 % 0x100) as byte;
    forall i | 0 <= i < |left| { buffer[4 + i] := left[i]; }
    forall i | 0 <= i < |right| { buffer[4 + |left| + i] := right[i]; }
    data := buffer[..];
  }

  // ---------------------------------------------------------------------------
  // Building one frame

  function FormatOf(t: DataType): string {
    match t
    case DepthMap | DisparityMap | ConfidenceMap => "raw_f32"
    case PointCloud => "raw_f32x4"
    case _ => "json"
  }

  function StereoBundle(p: StereoPair): Bundle {
    Bundle(StereoImage, "stereo_image", StereoPayload(p.left, p.right), p.leftInfo.format, p.leftInfo.isEncoded,
           p.leftInfo.channels, p.leftInfo.code, p.rightInfo.channels, p.rightInfo.code, p.leftInfo.width, p.leftInfo.height)
  }

  function SynthBundle(t: DataType, data: seq<byte>): Bundle {
    Bundle(t, NameOf(t), data, FormatOf(t), false, 0, "", 0, "", 0, 0)
  }

  /** The payload of one type: none if it is inactive, or stereo without any loaded pair. */
  function BundleOf(r: Registry, t: DataType, stereo: Option<StereoPair>, synth: DataType -> seq<byte>): seq<Bundle> {
    if !Active(r, t) then []
    else if t == StereoImage then (match stereo case Some(p) => [StereoBundle(p)] case None => [])
    else [SynthBundle(t, synth(t))]
  }

  function BundlesOf(r: Registry, types: seq<DataType>, stereo: Option<StereoPair>, synth: DataType -> seq<byte>): seq<Bundle> {
    if types == [] then []
    else BundlesOf(r, types[..|types| - 1], stereo, synth) + BundleOf(r, types[|types| - 1], stereo, synth)
  }

  predicate Distinct(types: seq<DataType>) {
    forall i, j :: 0 <= i < j < |types| ==> types[i] != types[j]
  }

  function PairAt(pairs: seq<StereoPair>, cursor: Word): Option<StereoPair> {
    if pairs == [] then None else Some(pairs[cursor % |pairs|])
  }

  /** Where the cursor of the source is after a pass over the types. */
  function CursorAfter(r: Registry, types: seq<DataType>, pairs: seq<StereoPair>, start: Word): Word {
    if StereoImage in types && Active(r, StereoImage) && pairs != [] then Wrap(start + 1) else start
  }

  lemma BundlesStep(r: Registry, types: seq<DataType>, i: nat, pairs: seq<StereoPair>, start: Word, synth: DataType -> seq<byte>)
    requires i < |types| && Distinct(types)
    ensures var cursor := CursorAfter(r, types[..i], pairs, start);
            && BundlesOf(r, types[..i + 1], PairAt(pairs, start), synth)
               == BundlesOf(r, types[..i], PairAt(pairs, start), synth) + BundleOf(r, types[i], PairAt(pairs, cursor), synth)
            && CursorAfter(r, types[..i + 1], pairs, start) == CursorAfter(r, [types[i]], pairs, cursor)
  {
    assert types[..i + 1][..i] == types[..i];
    assert types[..i + 1] == types[..i] + [types[i]];
  }

  function FrameFor(r: Registry, g: Group, stereo: Option<StereoPair>, synth: DataType -> seq<byte>, index: nat, sec: int, nsec: int): Frame {
    Frame(g, sec, nsec, index, index, "", BundlesOf(r, Members(g), stereo, synth))
  }

  /** Each payload of a frame belongs to an active type, and every active type that has data is there. */
  lemma {:induction false} BundlesServeActiveTypes(r: Registry, types: seq<DataType>, stereo: Option<StereoPair>, synth: DataType -> seq<byte>, t: DataType)
    ensures (exists b :: b in BundlesOf(r, types, stereo, synth) && b.dataType == t)
            <==> t in types && Active(r, t) && (t == StereoImage ==> stereo.Some?)
    ensures forall b :: b in BundlesOf(r, types, stereo, synth) && b.dataType == t ==> BundleOf(r, t, stereo, synth) == [b]
  {
    if types != [] {
      var init, last := types[..|types| - 1], types[|types| - 1];
      BundlesServeActiveTypes(r, init, stereo, synth, t);
      var bs := BundleOf(r, last, stereo, synth);
      assert forall b :: b in BundlesOf(r, types, stereo, synth) <==> b in BundlesOf(r, init, stereo, synth) || b in bs;
      if t == last && Active(r, t) && (t == StereoImage ==> stereo.Some?) {
        assert bs[0] in BundlesOf(r, types, stereo, synth) && bs[0].dataType == t;
      }
    }
  }

  /** What the engine pushes is a frame the pipeline's state machine expects for this tick and group. */
  lemma FrameIdentity(r: Registry, g: Group, stereo: Option<StereoPair>, synth: DataType -> seq<byte>, index: nat, sec: int, nsec: int)
    ensures var f := FrameFor(r, g, stereo, synth, index, sec, nsec);
            && PipelineMachine.TickFrame(f, g, index, sec, nsec)
            && (f.bundles != [] ==> GroupActive(r, g))
  {
    var f := FrameFor(r, g, stereo, synth, index, sec, nsec);
    if f.bundles != [] {
      var b := f.bundles[0];
      BundlesServeActiveTypes(r, Members(g), stereo, synth, b.dataType);
      assert b in f.bundles;
    }
  }

  class CaptureEngine {
    const source: SimDataSource
    const pipeline: DataPipeline
    const channels: ChannelManager
    var frameIndex: Word
    var framesProduced: Word

    constructor (source: SimDataSource, pipeline: DataPipeline, channels: ChannelManager)
      ensures this.source == source && this.pipeline == pipeline && this.channels == channels
      ensures frameIndex == 0 && framesProduced == 0
    {
      this.source, this.pipeline, this.channels := source, pipeline, channels;
      frameIndex, framesProduced := 0, 0;
    }

    ghost predicate Ready()
      reads channels
    {
      channels.Valid() && pipeline.WellFormed() && this !in pipeline.Repr()
    }

    /** The pair the next stereo payload carries. */
    function NextPair(): Option<StereoPair>
      reads source
    {
      PairAt(source.pairs, source.cursor)
    }

    /** The payload of one type. Only an active stereo payload moves the cursor of the source. */
    method MakeBundle(t: DataType, synth: DataType -> seq<byte>) returns (bs: seq<Bundle>)
      requires channels.Valid()
      modifies source`cursor
      ensures bs == BundleOf(channels.Model(), t, old(NextPair()), synth)
      ensures source.cursor == CursorAfter(channels.Model(), [t], source.pairs, old(source.cursor))
    {
      bs := [];
      var active := channels.IsActive(t);
      if !active {
        return;
      }
      if t == StereoImage {
        var p := source.NextStereo();
        if p.Some? {
          var data := WriteStereo(p.value.left, p.value.right);
          bs := [StereoBundle(p.value).(data := data)];
        }
      } else {
        bs := [SynthBundle(t, synth(t))];
      }
    }

    /** The loop over the types of a group: each active one adds its payload. */
    method BuildBundles(types: seq<DataType>, synth: DataType -> seq<byte>) returns (bundles: seq<Bundle>)
      requires channels.Valid() && Distinct(types)
      modifies source`cursor
      ensures bundles == BundlesOf(channels.Model(), types, old(NextPair()), synth)
      ensures source.cursor == CursorAfter(channels.Model(), types, source.pairs, old(source.cursor))
    {
      ghost var r, pairs, start := channels.Model(), source.pairs, source.cursor;
      bundles := [];
      var i := 0;
      while i < |types|
        invariant 0 <= i <= |types|
        invariant bundles == BundlesOf(r, types[..i], PairAt(pairs, start), synth)
        invariant source.cursor == CursorAfter(r, types[..i], pairs, start)
      {
        BundlesStep(r, types, i, pairs, start, synth);
        var bs := MakeBundle(types[i], synth);
        bundles := bundles + bs;
        i := i + 1;
      }
      assert types[..i] == types;
    }

    method BuildFrame(g: Group, sec: int, nsec: int, synth: DataType -> seq<byte>) returns (f: Frame)
      requires channels.Valid()
      modifies source`cursor
      ensures f == FrameFor(channels.Model(), g, old(NextPair()), synth, frameIndex, sec, nsec)
      ensures source.cursor == CursorAfter(channels.Model(), Members(g), source.pairs, old(source.cursor))
    {
      MembersDistinct(g);
      var bundles := BuildBundles(Members(g), synth);
      f := Frame(g, sec, nsec, frameIndex, frameIndex, "", bundles);
    }

    /** One group's part of a tick. */
    method TickGroup(g: Group, sec: int, nsec: int, synth: DataType -> seq<byte>)
      requires Ready()
      modifies source`cursor, pipeline`notified, pipeline.Queue(g), pipeline.Queue(g).buffer
      ensures source.cursor == CursorAfter(channels.Model(), Members(g), source.pairs, old(source.cursor))
      ensures pipeline.Popped() == old(pipeline.Popped())
      ensures old(pipeline.Valid()) ==>
                pipeline.Contents()
                == Offered(channels.Model(), old(pipeline.Contents()), pipeline.q2d.capacity, g, old(NextPair()), synth, frameIndex, sec, nsec)
      ensures old(pipeline.Valid() && pipeline.Queue(g).CounterSafe()) ==> pipeline.Valid()
    {
      var active := channels.IsGroupActive(g);
      if !active {
        InactiveBuildsNothing(channels.Model(), g, source.pairs, source.cursor);
        return;
      }
      var f := BuildFrame(g, sec, nsec, synth);
      PushFilled(g, f);
    }

    /** An empty frame of an active group is not pushed. */
    method PushFilled(g: Group, f: Frame)
      requires Ready() && GroupActive(channels.Model(), g)
      modifies pipeline`notified, pipeline.Queue(g), pipeline.Queue(g).buffer
      ensures pipeline.Popped() == old(pipeline.Popped())
      ensures old(pipeline.Valid()) ==>
                pipeline.Contents()
                == StaleFlush.Offer(channels.Model(), old(pipeline.Contents()), pipeline.q2d.capacity, g, f)
      ensures old(pipeline.Valid() && pipeline.Queue(g).CounterSafe()) ==> pipeline.Valid()
    {
      if f.bundles != [] {
        var ok := pipeline.Push(g, f);
      }
    }

    ghost predicate CounterSafe()
      reads pipeline.Repr()
    {
      pipeline.q2d.CounterSafe() && pipeline.q3d.CounterSafe() && pipeline.qsensor.CounterSafe()
    }

    /** A whole tick: the three groups in order with one timestamp and one index, then the index moves on. */
    method Tick(sec: int, nsec: int, synth: DataType -> seq<byte>)
      requires Ready()
      modifies `frameIndex, `framesProduced, source`cursor, pipeline.Repr()
      ensures frameIndex == Wrap(old(frameIndex) + 1) && framesProduced == Wrap(old(framesProduced) + 1)
      ensures source.cursor == CursorAfter(channels.Model(), Members(Visual2D), source.pairs, old(source.cursor))
      ensures pipeline.Popped() == old(pipeline.Popped())
      ensures old(pipeline.Valid() && CounterSafe()) ==> pipeline.Valid()
      ensures old(pipeline.Valid() && CounterSafe()) ==>
                pipeline.Contents()
                == Ticked(channels.Model(), old(pipeline.Contents()), pipeline.q2d.capacity, old(NextPair()), synth, old(frameIndex), sec, nsec)
    {
      TickGroups(sec, nsec, synth);
      frameIndex := Wrap(frameIndex + 1);
      framesProduced := Wrap(framesProduced + 1);
    }

    method TickGroups(sec: int, nsec: int, synth: DataType -> seq<byte>)
      requires Ready()
      modifies source`cursor, pipeline.Repr()
      ensures source.cursor == CursorAfter(channels.Model(), Members(Visual2D), source.pairs, old(source.cursor))
      ensures pipeline.Popped() == old(pipeline.Popped())
      ensures old(pipeline.Valid() && CounterSafe()) ==> pipeline.Valid()
      ensures old(pipeline.Valid() && CounterSafe()) ==>
                pipeline.Contents()
                == Ticked(channels.Model(), old(pipeline.Contents()), pipeline.q2d.capacity, old(NextPair()), synth, frameIndex, sec, nsec)
    {
      ghost var r, cap, q, next := channels.Model(), pipeline.q2d.capacity, pipeline.Contents(), NextPair();
      ghost var start := source.cursor;
      TickGroup(Visual2D, sec, nsec, synth);
      ghost var q1, next1, start1 := pipeline.Contents(), NextPair(), source.cursor;
      NoStereoNoMove(r, Visual3D, source.pairs, start1);
      TickGroup(Visual3D, sec, nsec, synth);
      ghost var q2 := pipeline.Contents();
      NoStereoNoMove(r, SensorData, source.pairs, start1);
      TickGroup(SensorData, sec, nsec, synth);
      TickedIs(r, q, q1, q2, cap, next, next1, synth, frameIndex, sec, nsec);
    }
  }

  lemma NoStereoNoMove(r: Registry, g: Group, pairs: seq<StereoPair>, start: Word)
    requires g != Visual2D
    ensures CursorAfter(r, Members(g), pairs, start) == start
  {
  }

  /** The three parts of a tick, the later two with whatever pair comes next by then. */
  lemma TickedIs(r: Registry, q: PerGroup<seq<Frame>>, q1: PerGroup<seq<Frame>>, q2: PerGroup<seq<Frame>>, cap: nat,
                 stereo: Option<StereoPair>, later: Option<StereoPair>, synth: DataType -> seq<byte>, index: nat, sec: int, nsec: int)
    ensures q1 == Offered(r, q, cap, Visual2D, stereo, synth, index, sec, nsec)
            && q2 == Offered(r, q1, cap, Visual3D, later, synth, index, sec, nsec)
            ==> Offered(r, q2, cap, SensorData, later, synth, index, sec, nsec) == Ticked(r, q, cap, stereo, synth, index, sec, nsec)
  {
    OfferWithoutStereo(r, q1, cap, Visual3D, later, synth, index, sec, nsec);
    OfferWithoutStereo(r, q2, cap, SensorData, later, synth, index, sec, nsec);
  }

  /** One group's part of a tick, on values. */
  function Offered(r: Registry, q: PerGroup<seq<Frame>>, cap: nat, g: Group, stereo: Option<StereoPair>, synth: DataType -> seq<byte>,
                   index: nat, sec: int, nsec: int): PerGroup<seq<Frame>> {
    StaleFlush.Offer(r, q, cap, g, FrameFor(r, g, stereo, synth, index, sec, nsec))
  }

  /** What a tick leaves in the queues: every group that is active and has data gets one frame if there is room. */
  function Ticked(r: Registry, q: PerGroup<seq<Frame>>, cap: nat, stereo: Option<StereoPair>, synth: DataType -> seq<byte>,
                  index: nat, sec: int, nsec: int): PerGroup<seq<Frame>> {
    var q1 := Offered(r, q, cap, Visual2D, stereo, synth, index, sec, nsec);
    var q2 := Offered(r, q1, cap, Visual3D, None, synth, index, sec, nsec);
    Offered(r, q2, cap, SensorData, None, synth, index, sec, nsec)
  }

  /** The groups do not disturb each other: a tick appends its own frame to the queue of a group that is
      active, has data and has room, and changes no other queue. */
  lemma TickIsGroupwise(r: Registry, q: PerGroup<seq<Frame>>, cap: nat, stereo: Option<StereoPair>, synth: DataType -> seq<byte>,
                        index: nat, sec: int, nsec: int, g: Group) returns (f: Frame)
    ensures PipelineMachine.TickFrame(f, g, index, sec, nsec)
    ensures forall t :: (exists b :: b in f.bundles && b.dataType == t)
                        <==> t in Members(g) && Active(r, t) && (t == StereoImage ==> stereo.Some?)
    ensures Ticked(r, q, cap, stereo, synth, index, sec, nsec).At(g)
            == q.At(g) + if f.bundles != [] && |q.At(g)| < cap then [f] else []
  {
    f := FrameFor(r, g, stereo, synth, index, sec, nsec);
    StereoOnlyIn2D(r, g, stereo, synth);
    FrameIdentity(r, g, stereo, synth, index, sec, nsec);
    forall t
      ensures (exists b :: b in f.bundles && b.dataType == t)
              <==> t in Members(g) && Active(r, t) && (t == StereoImage ==> stereo.Some?)
    {
      BundlesServeActiveTypes(r, Members(g), stereo, synth, t);
    }
  }

  lemma OfferWithoutStereo(r: Registry, q: PerGroup<seq<Frame>>, cap: nat, g: Group, stereo: Option<StereoPair>, synth: DataType -> seq<byte>,
                           index: nat, sec: int, nsec: int)
    requires g != Visual2D
    ensures Offered(r, q, cap, g, stereo, synth, index, sec, nsec) == Offered(r, q, cap, g, None, synth, index, sec, nsec)
  {
    StereoOnlyIn2D(r, g, stereo, synth);
  }

  lemma MembersDistinct(g: Group)
    ensures Distinct(Members(g))
  {
  }

  lemma InactiveBuildsNothing(r: Registry, g: Group, pairs: seq<StereoPair>, start: Word)
    requires !GroupActive(r, g)
    ensures CursorAfter(r, Members(g), pairs, start) == start
  {
  }

  lemma StereoOnlyIn2D(r: Registry, g: Group, stereo: Option<StereoPair>, synth: DataType -> seq<byte>)
    ensures g != Visual2D ==> BundlesOf(r, Members(g), stereo, synth) == BundlesOf(r, Members(g), None, synth)
  {
    if g != Visual2D { NoStereoNoMatter(r, Members(g), stereo, synth); }
  }

  lemma {:induction false} NoStereoNoMatter(r: Registry, types: seq<DataType>, stereo: Option<StereoPair>, synth: DataType -> seq<byte>)
    requires StereoImage !in types
    ensures BundlesOf(r, types, stereo, synth) == BundlesOf(r, types, None, synth)
  {
    if types != [] { NoStereoNoMatter(r, types[..|types| - 1], stereo, synth); }
  }
}
