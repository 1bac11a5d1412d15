/** From a capture tick to what a subscriber reads: the engine's frames through the publisher's framing. */
module EndToEnd {
  import opened Types
  import opened Counter64
  import opened Text
  import opened ImageProbe
  import opened StereoPairs
  import opened Channels
  import opened CaptureEngineModule
  import opened Multipart
  import opened DataPublisherModule
  import PipelineMachine

  /** What every loaded pair meets: the probe always names a channel layout and never a negative count. */
  predicate Probed(p: StereoPair) { p.leftInfo.code != "" && p.rightInfo.channels >= 0 }

  lemma LoadedPairsAreProbed(pairs: seq<StereoPair>, m: map<nat, Slot>, files: map<string, seq<byte>>, d: Defaults)
    requires PairsOf(pairs, m, files, d)
    ensures forall p :: p in pairs ==> Probed(p)
  {
    forall p | p in pairs
      ensures Probed(p)
    {
      var i :| 0 <= i < |pairs| && pairs[i] == p;
      PairIsProbed(p.pairIndex, m[p.pairIndex], files, d);
    }
  }

  lemma PairIsProbed(idx: nat, s: Slot, files: map<string, seq<byte>>, d: Defaults)
    ensures Probed(MakePair(idx, s, files, d))
  {
    var p := MakePair(idx, s, files, d);
    ProbeNames(p.left, d.width, d.height, d.channels);
    ProbeNames(p.right, d.width, d.height, d.channels);
  }

  lemma ProbeNames(b: seq<byte>, defW: int, defH: int, defCh: int)
    ensures Probe(b, defW, defH, defCh).code != "" && Probe(b, defW, defH, defCh).channels >= 0
  {
  }

  lemma {:induction false} EngineBundles(r: Registry, types: seq<DataType>, stereo: Option<StereoPair>, synth: DataType -> seq<byte>)
    requires stereo.Some? ==> Probed(stereo.value)
    ensures (forall b :: b in BundlesOf(r, types, stereo, synth) ==> Describable(b))
            <==> (StereoImage in types && Active(r, StereoImage) && stereo.Some? ==> stereo.value.leftInfo.width > 0)
  {
    if types != [] {
      var init, last := types[..|types| - 1], types[|types| - 1];
      EngineBundles(r, init, stereo, synth);
      var bs := BundleOf(r, last, stereo, synth);
      assert types == init + [last];
      assert BundlesOf(r, types, stereo, synth) == BundlesOf(r, init, stereo, synth) + bs;
      assert (forall b :: b in bs ==> Describable(b))
             <==> (last == StereoImage && Active(r, StereoImage) && stereo.Some? ==> stereo.value.leftInfo.width > 0) by {
        if bs != [] { assert bs == [bs[0]] && bs[0] in bs; }
      }
    }
  }

  /** The message carries the engine's frame exactly when the left picture in it, if any, was probed to a
      positive width: without one the header keeps none of the picture's description. */
  lemma EngineFrameArrives(r: Registry, g: Group, stereo: Option<StereoPair>, synth: DataType -> seq<byte>,
                           index: nat, sec: int, nsec: int, pubId: string)
    requires stereo.Some? ==> Probed(stereo.value)
    ensures var f := FrameFor(r, g, stereo, synth, index, sec, nsec);
            Carries(Message(f, pubId), f.(pubId := pubId))
            <==> (g == Visual2D && Active(r, StereoImage) && stereo.Some? ==> stereo.value.leftInfo.width > 0)
  {
    var f := FrameFor(r, g, stereo, synth, index, sec, nsec);
    EngineBundles(r, Members(g), stereo, synth);
    ArrivesWhenDescribable(f, pubId);
    assert StereoImage in Members(g) <==> g == Visual2D by { assert Members(Visual2D)[0] == StereoImage; }
  }

  /** What the second half of that needs of any frame. */
  lemma ArrivesWhenDescribable(f: Frame, pubId: string)
    ensures Carries(Message(f, pubId), f.(pubId := PubIdOf(f, pubId))) <==> forall b :: b in f.bundles ==> Describable(b)
  {
    var m := Message(f, pubId);
    if forall b :: b in f.bundles ==> Describable(b) {
      MessageCarriesFrame(f, pubId, f.(pubId := PubIdOf(f, pubId)));
    } else {
      var i :| 0 <= i < |f.bundles| && !Describable(f.bundles[i]);
      BundleRoundTrip(f.bundles[i]);
      assert m[0].content.header.parts[i] == InfoOf(f.bundles[i]);
    }
  }

  function RawFile(magic: seq<byte>, width: nat, height: nat, rows: seq<byte>): seq<byte>
    requires width < LENGTH_LIMIT && height < LENGTH_LIMIT
  {
    SIMR + magic + (LittleEndian(width) + LittleEndian(height)) + rows
  }

  /** The listing of a directory with one file. */
  function OneFile(path: string, camera: string, zeros: string, idx: nat, ext: string): seq<DirEntry> {
    [DirEntry(path, camera + "_" + (zeros + Decimal(idx)) + "." + ext, true)]
  }

  /** A lone file is filed on its side of its index. */
  lemma OneFileIsFiled(path: string, camera: string, zeros: string, idx: nat, ext: string) returns (slot: Slot)
    requires (forall c :: c in zeros ==> c == '0') && idx < WORD && Lower(ext) in {"jpg", "jpeg", "png", "raw"}
    requires path != "" && SideOf(camera) != OtherSide
    ensures PlaceAll(OneFile(path, camera, zeros, idx, ext)) == map[idx := slot]
    ensures slot == if SideOf(camera) == Left then Slot(path, "") else Slot("", path)
  {
    var listing := OneFile(path, camera, zeros, idx, ext);
    NamesAreUnderstood(path, camera, zeros, idx, ext);
    slot := if SideOf(camera) == Left then Slot(path, "") else Slot("", path);
    assert listing[..0] == [];
    assert PlaceAll(listing) == Place(map[], listing[0]);
  }

  /** A directory with one raw image of any encoded size, under any of the documented names: scanning it
      loads one pair, and the message carries its frame exactly when the width fits the signed field and
      is not zero. */
  lemma RawWidthDecides(path: string, camera: string, zeros: string, idx: nat, ext: string,
                        magic: seq<byte>, width: nat, height: nat, rows: seq<byte>, d: Defaults,
                        r: Registry, synth: DataType -> seq<byte>, index: nat, sec: int, nsec: int, pubId: string)
    returns (p: StereoPair)
    requires (forall c :: c in zeros ==> c == '0') && idx < WORD && Lower(ext) in {"jpg", "jpeg", "png", "raw"}
    requires path != "" && SideOf(camera) != OtherSide
    requires |magic| == 12 && width < LENGTH_LIMIT && height < LENGTH_LIMIT && Active(r, StereoImage)
    ensures PairsOf([p], PlaceAll(OneFile(path, camera, zeros, idx, ext)), map[path := RawFile(magic, width, height, rows)], d)
    ensures p.pairIndex == idx && p.left == p.right == RawFile(magic, width, height, rows)
    ensures var f := FrameFor(r, Visual2D, Some(p), synth, index, sec, nsec);
            Carries(Message(f, pubId), f.(pubId := pubId)) <==> 0 < width < 0x8000_0000
  {
    var files := map[path := RawFile(magic, width, height, rows)];
    var slot := OneFileIsFiled(path, camera, zeros, idx, ext);
    p := MakePair(idx, slot, files, d);
    assert [p][0].pairIndex == idx;
    RawIsMeasured(magic, width, height, rows, d.width, d.height, d.channels);
    SignedFits(width);
    PairIsProbed(idx, slot, files, d);
    EngineFrameArrives(r, Visual2D, Some(p), synth, index, sec, nsec, pubId);
  }

  /** Both pictures of the pair come out of the message again exactly when the left one has less than 4 GiB. */
  lemma PicturesArrive(r: Registry, p: StereoPair, synth: DataType -> seq<byte>, index: nat, sec: int, nsec: int, pubId: string)
    requires Active(r, StereoImage)
    ensures var m := Message(FrameFor(r, Visual2D, Some(p), synth, index, sec, nsec), pubId);
            && |m| >= 2 && m[1].content.Payload?
            && (SplitPayload(m[1].content.data) == Some((p.left, p.right)) <==> |p.left| < 0x1_0000_0000)
  {
    var f := FrameFor(r, Visual2D, Some(p), synth, index, sec, nsec);
    StereoComesFirst(r, p, synth);
    assert Message(f, pubId)[1].content == Payload(f.bundles[0].data);
    StereoRoundTrip(p.left, p.right);
  }

  lemma StereoComesFirst(r: Registry, p: StereoPair, synth: DataType -> seq<byte>)
    requires Active(r, StereoImage)
    ensures var bs := BundlesOf(r, Members(Visual2D), Some(p), synth); bs != [] && bs[0] == StereoBundle(p)
  {
    var types := [StereoImage, DepthMap];
    assert types[..1] == [StereoImage];
    assert types[..1][..0] == [];
    assert BundlesOf(r, types[..1], Some(p), synth) == [StereoBundle(p)];
  }

  // ---------------------------------------------------------------------------
  // From the capture loop to a subscriber of one group

  /** The frames that were sent completely. */
  function SentFrames(log: seq<Attempt>): seq<Frame> {
    if log == [] then []
    else SentFrames(log[..|log| - 1]) + (if log[|log| - 1].Full() then [log[|log| - 1].frame] else [])
  }

  lemma {:induction false} SentMessagesAre(log: seq<Attempt>, pubId: string)
    requires Framed(log, pubId)
    ensures |SentMessages(log)| == |SentFrames(log)|
    ensures forall i :: 0 <= i < |SentFrames(log)| ==> SentMessages(log)[i] == Message(SentFrames(log)[i], pubId)
  {
    if log != [] {
      assert log[|log| - 1] in log;
      SentMessagesAre(log[..|log| - 1], pubId);
    }
  }

  lemma {:induction false} SentFramesInOrder(log: seq<Attempt>)
    requires PipelineMachine.Increasing(Attempted(log))
    ensures PipelineMachine.Increasing(SentFrames(log))
    ensures forall f :: f in SentFrames(log) ==> f in Attempted(log)
  {
    if log != [] {
      var init, last := log[..|log| - 1], log[|log| - 1];
      var before := Attempted(init);
      assert Attempted(log) == before + [last.frame];
      assert forall a, b :: 0 <= a < b < |before| ==> before[a] == Attempted(log)[a] && before[b] == Attempted(log)[b];
      SentFramesInOrder(init);
      forall f | f in SentFrames(init)
        ensures f.frameIndex < last.frame.frameIndex
      {
        var a :| 0 <= a < |before| && before[a] == f;
        assert Attempted(log)[a].frameIndex < Attempted(log)[|before|].frameIndex;
      }
      PipelineMachine.IncreasingAppend(SentFrames(init), last.frame);
    }
  }

  function HeaderIn(m: seq<Part>): Header
    requires m != [] && m[0].content.HeaderText?
  {
    m[0].content.header
  }

  /** For every schedule of capture, publisher and drains, and every pattern of refusals in which no message
      is completed after a partial one, at any point of a batch: the messages a subscriber splits out of one group's socket are
      whole frames of that group with strictly increasing frame index, and no pair id comes twice. */
  lemma SubscribersSeeOrder(capacity: nat, steps: seq<PipelineMachine.Step>, g: Group, log: seq<Attempt>, pubId: string)
    requires PipelineMachine.Schedule(PipelineMachine.Initial(capacity), steps)
    requires PipelineMachine.Run(PipelineMachine.Initial(capacity), steps).ticks < WORD
    requires AllValid(log) && Framed(log, pubId) && PartialsLast(log)
    requires Attempted(log) <= OfGroup(PipelineMachine.Run(PipelineMachine.Initial(capacity), steps).sent, g)
    ensures var got := Split(Wire(log)).0;
            && (forall i :: 0 <= i < |got| ==> Consistent(got[i]) && HeaderIn(got[i]).group == g)
            && (forall i, j :: 0 <= i < j < |got| ==>
                  && HeaderIn(got[i]).frameIndex < HeaderIn(got[j]).frameIndex
                  && HeaderIn(got[i]).pairId < HeaderIn(got[j]).pairId)
  {
    var s := PipelineMachine.Run(PipelineMachine.Initial(capacity), steps);
    var sent, got := SentFrames(log), Split(Wire(log)).0;
    PipelineMachine.PublishedInOrder(capacity, steps, g);
    IncreasingPrefix(Attempted(log), OfGroup(s.sent, g));
    SentFramesInOrder(log);
    SentMessagesAre(log, pubId);
    SentMessagesRecovered(log);
    forall i | 0 <= i < |got|
      ensures got[i] == Message(sent[i], pubId) && Consistent(got[i])
      ensures sent[i].group == g && sent[i].pairId == sent[i].frameIndex
    {
      assert sent[i] in OfGroup(s.sent, g);
      MessageConsistent(sent[i], pubId);
      SentFrameIsTicks(capacity, steps, g, sent[i]);
    }
  }

  lemma IncreasingPrefix(part: seq<Frame>, all: seq<Frame>)
    requires part <= all && PipelineMachine.Increasing(all)
    ensures PipelineMachine.Increasing(part) && forall f :: f in part ==> f in all
  {
    assert forall a :: 0 <= a < |part| ==> part[a] == all[a];
  }

  lemma {:induction false} FromGroup(fs: seq<Frame>, g: Group, f: Frame)
    requires f in OfGroup(fs, g)
    ensures f in fs && f.group == g
  {
    var init, last := fs[..|fs| - 1], fs[|fs| - 1];
    if f in OfGroup(init, g) {
      FromGroup(init, g, f);
    } else {
      assert f == last;
    }
  }

  lemma SentFrameIsTicks(capacity: nat, steps: seq<PipelineMachine.Step>, g: Group, f: Frame)
    requires PipelineMachine.Schedule(PipelineMachine.Initial(capacity), steps)
    requires PipelineMachine.Run(PipelineMachine.Initial(capacity), steps).ticks < WORD
    requires f in OfGroup(PipelineMachine.Run(PipelineMachine.Initial(capacity), steps).sent, g)
    ensures f.group == g && f.pairId == f.frameIndex
  {
    var s := PipelineMachine.Run(PipelineMachine.Initial(capacity), steps);
    FromGroup(s.sent, g, f);
    PipelineMachine.InitialHolds(capacity);
    PipelineMachine.RunKeeps(PipelineMachine.Initial(capacity), steps);
    PipelineMachine.SentWasAccepted(s, f);
  }
}
