/** What stands in a captured frame and in its message, type by type, in the documentation's own words. */
module FramePayloads {
  import opened Types
  import opened ImageProbe
  import opened StereoPairs
  import opened Channels
  import opened CaptureEngineModule
  import opened Multipart
  import opened Documented

  /** The documented members of a group, in the order of the table. */
  function InOrder(g: Group): seq<DataType> {
    match g
    case Visual2D => [StereoImage, DepthMap]
    case Visual3D => [PointCloud, DisparityMap, ConfidenceMap]
    case SensorData => [Imu, Temperature, Magnetometer, Barometer]
  }

  /** The documented format of a synthesised payload. */
  function Encoding(t: DataType): string {
    match t
    case DepthMap => "raw_f32"
    case DisparityMap => "raw_f32"
    case ConfidenceMap => "raw_f32"
    case PointCloud => "raw_f32x4"
    case Imu => "json"
    case Temperature => "json"
    case Magnetometer => "json"
    case Barometer => "json"
    case StereoImage => ""
  }

  /** The type is forced or subscribed to, and a stereo pair has been loaded if it takes one. */
  predicate Present(r: Registry, t: DataType, stereo: Option<StereoPair>) {
    && (t in r.forced || exists c :: c in r.clients && t in r.clients[c])
    && (t == StereoImage ==> stereo.Some?)
  }

  /** The present ones of some types, each in its place. */
  function Those(r: Registry, types: seq<DataType>, stereo: Option<StereoPair>): seq<DataType> {
    if types == [] then []
    else
      Those(r, types[..|types| - 1], stereo)
      + (if Present(r, types[|types| - 1], stereo) then [types[|types| - 1]] else [])
  }

  /** Both pictures behind the length of the left one, low byte first. */
  predicate Joined(data: seq<byte>, left: seq<byte>, right: seq<byte>) {
    && |data| == 4 + |left| + |right|
    && data[0] as nat + 0x100 * (data[1] as nat) + 0x1_0000 * (data[2] as nat) + 0x100_0000 * (data[3] as nat)
       == |left| % 0x1_0000_0000
    && data[4..4 + |left|] == left && data[4 + |left|..] == right
  }

  predicate Shows(b: Bundle, t: DataType, stereo: Option<StereoPair>, synth: DataType -> seq<byte>) {
    && b.dataType == t && b.partId == Word(t)
    && if t == StereoImage then
         && stereo.Some? && Joined(b.data, stereo.value.left, stereo.value.right)
         && b.format == stereo.value.leftInfo.format && b.isEncoded == stereo.value.leftInfo.isEncoded
         && b.channels == stereo.value.leftInfo.channels && b.code == stereo.value.leftInfo.code
         && b.width == stereo.value.leftInfo.width && b.height == stereo.value.leftInfo.height
         && b.rightChannels == stereo.value.rightInfo.channels && b.rightCode == stereo.value.rightInfo.code
       else
         && b.data == synth(t) && b.format == Encoding(t)
         && !b.isEncoded && b.channels == 0 && b.code == "" && b.width == 0 && b.height == 0
         && b.rightChannels == 0 && b.rightCode == ""
  }

  lemma PayloadIsJoined(left: seq<byte>, right: seq<byte>)
    ensures Joined(StereoPayload(left, right), left, right)
  {
    var n := |left| % 0x1_0000_0000;
    var data := StereoPayload(left, right);
    FourBytes(n);
    assert data == LittleEndian(n) + (left + right);
    assert data[0] == LittleEndian(n)[0] && data[1] == LittleEndian(n)[1];
    assert data[2] == LittleEndian(n)[2] && data[3] == LittleEndian(n)[3];
  }

  lemma BundleShows(r: Registry, t: DataType, stereo: Option<StereoPair>, synth: DataType -> seq<byte>)
    ensures var bs := BundleOf(r, t, stereo, synth);
            |bs| == (if Present(r, t, stereo) then 1 else 0) && (bs != [] ==> Shows(bs[0], t, stereo, synth))
  {
    if t == StereoImage && stereo.Some? { PayloadIsJoined(stereo.value.left, stereo.value.right); }
  }

  lemma {:induction false} BundlesShow(r: Registry, types: seq<DataType>, stereo: Option<StereoPair>, synth: DataType -> seq<byte>)
    ensures var (bs, ts) := (BundlesOf(r, types, stereo, synth), Those(r, types, stereo));
            |bs| == |ts| && forall k :: 0 <= k < |ts| ==> Shows(bs[k], ts[k], stereo, synth)
  {
    if types != [] {
      BundlesShow(r, types[..|types| - 1], stereo, synth);
      BundleShows(r, types[|types| - 1], stereo, synth);
    }
  }

  /** A frame holds one payload for each present member of its group, in the documented order, with the
      bytes its source gave for it and the documented description. */
  lemma FrameShows(r: Registry, g: Group, stereo: Option<StereoPair>, synth: DataType -> seq<byte>, index: nat, sec: int, nsec: int)
    ensures var (f, ts) := (FrameFor(r, g, stereo, synth, index, sec, nsec), Those(r, InOrder(g), stereo));
            && f.group == g && f.pairId == index && f.frameIndex == index && f.tsSec == sec && f.tsNsec == nsec && f.pubId == ""
            && |f.bundles| == |ts| && forall k :: 0 <= k < |ts| ==> Shows(f.bundles[k], ts[k], stereo, synth)
  {
    assert InOrder(g) == Members(g);
    BundlesShow(r, InOrder(g), stereo, synth);
  }

  /** No member is left out, none comes twice, and the order is that of the list. */
  lemma {:induction false} ThoseMeaning(r: Registry, types: seq<DataType>, stereo: Option<StereoPair>)
    requires forall i, j :: 0 <= i < j < |types| ==> types[i] != types[j]
    ensures var ts := Those(r, types, stereo);
            && (forall t :: t in ts <==> t in types && Present(r, t, stereo))
            && (forall i, j :: 0 <= i < j < |ts| ==>
                  ts[i] != ts[j] && exists a, b :: 0 <= a < b < |types| && types[a] == ts[i] && types[b] == ts[j])
  {
    if types != [] {
      var n := |types| - 1;
      var init, ts, before := types[..n], Those(r, types, stereo), Those(r, types[..n], stereo);
      ThoseMeaning(r, init, stereo);
      assert forall t :: t in types <==> t in init || t == types[n];
      forall i, j | 0 <= i < j < |ts|
        ensures ts[i] != ts[j] && exists a, b :: 0 <= a < b < |types| && types[a] == ts[i] && types[b] == ts[j]
      {
        if j < |before| {
          assert ts[i] == before[i] && ts[j] == before[j];
          var a, b :| 0 <= a < b < |init| && init[a] == ts[i] && init[b] == ts[j];
          assert types[a] == ts[i] && types[b] == ts[j];
        } else {
          assert before[i] in before && before[i] in init;
          var a :| 0 <= a < |init| && init[a] == ts[i];
          assert types[a] == ts[i] && types[n] == ts[j];
        }
      }
    }
  }

  /** The header entry and the payload part that a message has for one type. */
  predicate Listed(e: PartInfo, data: seq<byte>, t: DataType, stereo: Option<StereoPair>, synth: DataType -> seq<byte>) {
    && e.id == Word(t) && e.size == |data|
    && if t == StereoImage then
         && stereo.Some? && Joined(data, stereo.value.left, stereo.value.right)
         && var (l, r) := (stereo.value.leftInfo, stereo.value.rightInfo);
         && e.format == l.format && (e.image.Some? <==> l.width > 0)
         && (e.image.Some? ==>
               && e.image.value.isEncoded == l.isEncoded && e.image.value.channels == l.channels && e.image.value.code == l.code
               && e.image.value.width == l.width && e.image.value.height == l.height
               && e.image.value.rightChannels == (if r.channels > 0 then Some(r.channels) else None)
               && e.image.value.rightCode == (if r.code != "" then Some(r.code) else None))
       else
         data == synth(t) && e.format == Encoding(t) && e.image.None?
  }

  /** The published message: the header says which group, tick and publisher it is from and lists every
      payload, and the payloads follow in that order. */
  lemma MessageShows(r: Registry, g: Group, stereo: Option<StereoPair>, synth: DataType -> seq<byte>,
                     index: nat, sec: int, nsec: int, pubId: string)
    ensures var (m, ts) := (Message(FrameFor(r, g, stereo, synth, index, sec, nsec), pubId), Those(r, InOrder(g), stereo));
            && |m| == 1 + |ts| && m[0].content.HeaderText?
            && var h := m[0].content.header;
            && h.group == g && h.tsSec == sec && h.tsNsec == nsec && h.pairId == index && h.frameIndex == index
            && h.pubId == pubId && |h.parts| == |ts|
            && forall k :: 0 <= k < |ts| ==>
                 m[k + 1].content.Payload? && Listed(h.parts[k], m[k + 1].content.data, ts[k], stereo, synth)
  {
    var f, ts := FrameFor(r, g, stereo, synth, index, sec, nsec), Those(r, InOrder(g), stereo);
    FrameShows(r, g, stereo, synth, index, sec, nsec);
    var m := Message(f, pubId);
    forall k | 0 <= k < |ts|
      ensures m[k + 1].content.Payload? && Listed(m[0].content.header.parts[k], m[k + 1].content.data, ts[k], stereo, synth)
    {
      assert Shows(f.bundles[k], ts[k], stereo, synth);
      assert m[k + 1].content == Payload(f.bundles[k].data);
      assert m[0].content.header.parts[k] == InfoOf(f.bundles[k]);
    }
  }
}
