/** probe_image: the size and channel count of an image, read from its bytes. */
module ImageProbe {
  import opened Types

  datatype ImageInfo = ImageInfo(format: string, isEncoded: bool, channels: int, code: string, width: int, height: int)

  function Be16(b: seq<byte>, i: nat): nat
    requires i + 1 < |b|
  {
    256 * b[i] as nat + b[i + 1] as nat
  }

  function Be32(b: seq<byte>, i: nat): nat
    requires i + 3 < |b|
  {
    0x100_0000 * b[i] as nat + 0x1_0000 * b[i + 1] as nat + 0x100 * b[i + 2] as nat + b[i + 3] as nat
  }

  function Le32(b: seq<byte>, i: nat): (v: nat)
    requires i + 3 < |b|
    ensures v < 0x1_0000_0000
  {
    b[i] as nat + 0x100 * b[i + 1] as nat + 0x1_0000 * b[i + 2] as nat + 0x100_0000 * b[i + 3] as nat
  }

  /** A 32-bit word read as a signed int. */
  function Signed(v: nat): int {
    if v < 0x8000_0000 then v else v - 0x1_0000_0000
  }

  predicate IsSof(marker: byte) { marker == 0xC0 || marker == 0xC2 }

  /** Where the marker scan stops: the first frame header whose ten bytes are all there. */
  function FindSof(b: seq<byte>, i: nat): (r: Option<nat>)
    ensures r.Some? ==> r.value + 9 < |b|
    decreases |b| - i
  {
    if i + 3 >= |b| then None
    else if b[i] != 0xFF then FindSof(b, i + 1)
    else if IsSof(b[i + 1]) && i + 9 < |b| then Some(i)
    else FindSof(b, i + 2 + Be16(b, i + 2))
  }

  function JpegInfo(b: seq<byte>, defW: int, defH: int, defCh: int): ImageInfo {
    match FindSof(b, 2)
    case Some(i) =>
      var comp := b[i + 9] as int;
      ImageInfo("JPG", true, comp, if comp == 1 then "Mono" else "RGB", Be16(b, i + 7), Be16(b, i + 5))
    case None =>
      var ch := if defCh > 0 then defCh else 3;
      ImageInfo("JPG", true, ch, if ch == 1 then "Mono" else "RGB", defW, defH)
  }

  predicate StartsWith(b: seq<byte>, prefix: seq<byte>) { |prefix| <= |b| && b[..|prefix|] == prefix }

  const PNG: seq<byte> := [0x89, 0x50, 0x4E, 0x47, 0x0D, 0x0A, 0x1A, 0x0A]
  const SIMR: seq<byte> := [0x53, 0x49, 0x4D, 0x52]

  function PngInfo(b: seq<byte>): ImageInfo
    requires |b| >= 24
  {
    var colour := if |b| > 25 then b[25] as int else 6;
    var (ch, code) := match colour
      case 0 => (1, "Mono") case 2 => (3, "RGB") case 3 => (1, "Mono") case 4 => (2, "GRAYA") case _ => (4, "RGBA");
    ImageInfo("PNG", true, ch, code, Signed(Be32(b, 16)), Signed(Be32(b, 20)))
  }

  function Probe(b: seq<byte>, defW: int, defH: int, defCh: int): ImageInfo {
    if |b| >= 24 && StartsWith(b, SIMR) then
      ImageInfo("raw_u8", false, 3, "RGB", Signed(Le32(b, 16)), Signed(Le32(b, 20)))
    else if |b| >= 4 && StartsWith(b, [0xFF, 0xD8]) then
      JpegInfo(b, defW, defH, defCh)
    else if |b| >= 24 && StartsWith(b, PNG) then
      PngInfo(b)
    else if |b| >= 4 && (StartsWith(b, [0x49, 0x49]) || StartsWith(b, [0x4D, 0x4D])) then
      ImageInfo("TIFF", true, if defCh > 0 then defCh else 3, "RGB", defW, defH)
    else
      var ch := if defCh > 0 then defCh else 4;
      ImageInfo("raw_u8", false, ch, if ch == 4 then "BGRA" else "RGB", defW, defH)
  }

  /** The scan loop: it stays inside the buffer, and every round moves on by one byte or by a segment. */
  method ScanJpeg(b: seq<byte>, defW: int, defH: int, defCh: int) returns (info: ImageInfo)
    requires |b| >= 4
    ensures info == JpegInfo(b, defW, defH, defCh)
  {
    var i := 2;
    while i + 3 < |b|
      invariant FindSof(b, 2) == FindSof(b, i)
      decreases |b| - i
    {
      if b[i] != 0xFF {
        i := i + 1;
        continue;
      }
      var marker := b[i + 1];
      if marker == 0xC0 || marker == 0xC2 {
        if i + 9 < |b| {
          var comp := b[i + 9] as int;
          return ImageInfo("JPG", true, comp, if comp == 1 then "Mono" else "RGB", Be16(b, i + 7), Be16(b, i + 5));
        }
      }
      i := i + 2 + Be16(b, i + 2);
    }
    var ch := if defCh > 0 then defCh else 3;
    info := ImageInfo("JPG", true, ch, if ch == 1 then "Mono" else "RGB", defW, defH);
  }

  method ProbeImage(b: seq<byte>, defW: int, defH: int, defCh: int) returns (info: ImageInfo)
    ensures info == Probe(b, defW, defH, defCh)
  {
    if |b| >= 24 && StartsWith(b, SIMR) {
      return ImageInfo("raw_u8", false, 3, "RGB", Signed(Le32(b, 16)), Signed(Le32(b, 20)));
    }
    if |b| >= 4 && StartsWith(b, [0xFF, 0xD8]) {
      info := ScanJpeg(b, defW, defH, defCh);
      return;
    }
    if |b| >= 24 && StartsWith(b, PNG) {
      return PngInfo(b);
    }
    if |b| >= 4 && (StartsWith(b, [0x49, 0x49]) || StartsWith(b, [0x4D, 0x4D])) {
      return ImageInfo("TIFF", true, if defCh > 0 then defCh else 3, "RGB", defW, defH);
    }
    var ch := if defCh > 0 then defCh else 4;
    info := ImageInfo("raw_u8", false, ch, if ch == 4 then "BGRA" else "RGB", defW, defH);
  }

  // ---------------------------------------------------------------------------
  // What a JPEG encoder writes (sections B.1.1.4 and B.2.2 of ITU-T T.81)

  /** A marker segment with a length field, other than a SOF0 or SOF2 frame header. */
  datatype Segment = Segment(marker: byte, payload: seq<byte>) {
    predicate Valid() { marker != 0xC0 && marker != 0xC2 && |payload| + 2 < 0x1_0000 }
  }

  datatype FrameHeader = FrameHeader(progressive: bool, precision: byte, height: nat, width: nat, components: byte, specs: seq<byte>) {
    predicate Valid() { height < 0x1_0000 && width < 0x1_0000 && |specs| + 8 < 0x1_0000 }
  }

  function TwoBytes(v: nat): seq<byte>
    requires v < 0x1_0000
  {
    [(v / 256) as byte, (v % 256) as byte]
  }

  function SegmentBytes(s: Segment): seq<byte>
    requires s.Valid()
  {
    [0xFF, s.marker] + TwoBytes(|s.payload| + 2) + s.payload
  }

  function HeaderBytes(h: FrameHeader): seq<byte>
    requires h.Valid()
  {
    [0xFF, if h.progressive then 0xC2 else 0xC0] + TwoBytes(|h.specs| + 8)
    + [h.precision] + TwoBytes(h.height) + TwoBytes(h.width) + [h.components] + h.specs
  }

  function SegmentsBytes(segs: seq<Segment>): seq<byte>
    requires forall s :: s in segs ==> s.Valid()
  {
    if segs == [] then [] else SegmentBytes(segs[0]) + SegmentsBytes(segs[1..])
  }

  /** The bytes stand at position i of the buffer. */
  predicate Stands(b: seq<byte>, i: nat, x: seq<byte>) {
    i + |x| <= |b| && b[i..i + |x|] == x
  }

  lemma StandsByte(b: seq<byte>, i: nat, x: seq<byte>, k: nat)
    requires Stands(b, i, x) && k < |x|
    ensures b[i + k] == x[k]
  {
    assert b[i..i + |x|][k] == x[k];
  }

  lemma StandsSplit(b: seq<byte>, i: nat, x: seq<byte>, y: seq<byte>)
    requires Stands(b, i, x + y)
    ensures Stands(b, i, x) && Stands(b, i + |x|, y)
  {
    assert b[i..i + |x|] == (x + y)[..|x|];
    assert b[i + |x|..i + |x| + |y|] == (x + y)[|x|..];
  }

  /** The scan steps over one whole segment, whatever bytes its payload holds. */
  lemma SkipsSegment(b: seq<byte>, i: nat, s: Segment)
    requires s.Valid() && Stands(b, i, SegmentBytes(s))
    ensures FindSof(b, i) == FindSof(b, i + |SegmentBytes(s)|)
  {
    var x := SegmentBytes(s);
    StandsByte(b, i, x, 0);
    StandsByte(b, i, x, 1);
    StandsByte(b, i, x, 2);
    StandsByte(b, i, x, 3);
    assert Be16(b, i + 2) == |s.payload| + 2;
  }

  lemma SegmentsSplit(b: seq<byte>, i: nat, segs: seq<Segment>)
    requires segs != [] && (forall s :: s in segs ==> s.Valid()) && Stands(b, i, SegmentsBytes(segs))
    ensures segs[0].Valid() && forall s :: s in segs[1..] ==> s.Valid()
    ensures |SegmentsBytes(segs)| == |SegmentBytes(segs[0])| + |SegmentsBytes(segs[1..])|
    ensures Stands(b, i, SegmentBytes(segs[0])) && Stands(b, i + |SegmentBytes(segs[0])|, SegmentsBytes(segs[1..]))
  {
    StandsSplit(b, i, SegmentBytes(segs[0]), SegmentsBytes(segs[1..]));
  }

  lemma FirstSegment(b: seq<byte>, i: nat, segs: seq<Segment>) returns (next: nat)
    requires segs != [] && (forall s :: s in segs ==> s.Valid()) && Stands(b, i, SegmentsBytes(segs))
    ensures FindSof(b, i) == FindSof(b, next)
    ensures forall s :: s in segs[1..] ==> s.Valid()
    ensures Stands(b, next, SegmentsBytes(segs[1..])) && next + |SegmentsBytes(segs[1..])| == i + |SegmentsBytes(segs)|
  {
    SegmentsSplit(b, i, segs);
    next := PastSegment(b, i, segs[0]);
  }

  lemma PastSegment(b: seq<byte>, i: nat, s: Segment) returns (next: nat)
    requires s.Valid() && Stands(b, i, SegmentBytes(s))
    ensures next == i + |SegmentBytes(s)| && FindSof(b, i) == FindSof(b, next)
  {
    next := i + |SegmentBytes(s)|;
    SkipsSegment(b, i, s);
  }

  /** The scan runs over any list of segments to what follows them. */
  lemma {:induction false} SkipsSegments(b: seq<byte>, i: nat, segs: seq<Segment>)
    requires (forall s :: s in segs ==> s.Valid()) && Stands(b, i, SegmentsBytes(segs))
    ensures FindSof(b, i) == FindSof(b, i + |SegmentsBytes(segs)|)
    decreases |segs|
  {
    if segs != [] {
      var next := FirstSegment(b, i, segs);
      SkipsSegments(b, next, segs[1..]);
    }
  }

  lemma HeaderStops(b: seq<byte>, i: nat, h: FrameHeader)
    requires h.Valid() && Stands(b, i, HeaderBytes(h))
    ensures FindSof(b, i) == Some(i) && i + 9 < |b|
    ensures Be16(b, i + 5) == h.height && Be16(b, i + 7) == h.width && b[i + 9] == h.components
  {
    var x := HeaderBytes(h);
    assert x[0] == 0xFF && IsSof(x[1]);
    assert x[5..7] == TwoBytes(h.height) && x[7..9] == TwoBytes(h.width) && x[9] == h.components;
    assert x[5] == x[5..7][0] && x[6] == x[5..7][1] && x[7] == x[7..9][0] && x[8] == x[7..9][1];
    forall k: nat | k < 10 ensures b[i + k] == x[k] { StandsByte(b, i, x, k); }
  }

  lemma JpegBranch(b: seq<byte>, defW: int, defH: int, defCh: int)
    requires Stands(b, 0, [0xFF, 0xD8]) && |b| >= 4
    ensures Probe(b, defW, defH, defCh) == JpegInfo(b, defW, defH, defCh)
  {
    StandsByte(b, 0, [0xFF, 0xD8], 0);
    if StartsWith(b, SIMR) { StandsByte(b, 0, SIMR, 0); }
  }

  /** Stray bytes between segments are passed over one by one. */
  lemma {:induction false} SkipsStray(b: seq<byte>, i: nat, stray: seq<byte>)
    requires Stands(b, i, stray) && forall k :: 0 <= k < |stray| ==> stray[k] != 0xFF
    ensures FindSof(b, i) == FindSof(b, i + |stray|)
    decreases |stray|
  {
    if stray != [] {
      StandsByte(b, i, stray, 0);
      assert stray == [stray[0]] + stray[1..];
      StandsSplit(b, i, [stray[0]], stray[1..]);
      SkipsStray(b, i + 1, stray[1..]);
    }
  }

  lemma MeasuredWhereItStands(b: seq<byte>, segs: seq<Segment>, stray: seq<byte>, h: FrameHeader, defW: int, defH: int, defCh: int)
    requires h.Valid() && (forall s :: s in segs ==> s.Valid()) && forall k :: 0 <= k < |stray| ==> stray[k] != 0xFF
    requires Stands(b, 0, [0xFF, 0xD8]) && Stands(b, 2, SegmentsBytes(segs))
    requires Stands(b, 2 + |SegmentsBytes(segs)|, stray) && Stands(b, 2 + |SegmentsBytes(segs)| + |stray|, HeaderBytes(h))
    ensures Probe(b, defW, defH, defCh)
            == ImageInfo("JPG", true, h.components as int, if h.components == 1 then "Mono" else "RGB", h.width, h.height)
  {
    var i := 2 + |SegmentsBytes(segs)|;
    SkipsSegments(b, 2, segs);
    SkipsStray(b, i, stray);
    HeaderStops(b, i + |stray|, h);
    JpegBranch(b, defW, defH, defCh);
  }

  /** Every baseline or progressive JPEG is measured right: any segments, any stray bytes but 0xFF, then the
      frame header, then anything. */
  lemma JpegIsMeasured(segs: seq<Segment>, stray: seq<byte>, h: FrameHeader, tail: seq<byte>, defW: int, defH: int, defCh: int)
    requires h.Valid() && (forall s :: s in segs ==> s.Valid()) && forall k :: 0 <= k < |stray| ==> stray[k] != 0xFF
    ensures Probe([0xFF, 0xD8] + SegmentsBytes(segs) + stray + (HeaderBytes(h) + tail), defW, defH, defCh)
            == ImageInfo("JPG", true, h.components as int, if h.components == 1 then "Mono" else "RGB", h.width, h.height)
  {
    var b := [0xFF, 0xD8] + SegmentsBytes(segs) + stray + (HeaderBytes(h) + tail);
    JpegLayout([0xFF, 0xD8], SegmentsBytes(segs), stray, HeaderBytes(h) + tail);
    StandsAtEnd([0xFF, 0xD8] + SegmentsBytes(segs) + stray, HeaderBytes(h) + tail);
    StandsSplit(b, 2 + |SegmentsBytes(segs)| + |stray|, HeaderBytes(h), tail);
    MeasuredWhereItStands(b, segs, stray, h, defW, defH, defCh);
  }

  lemma StandsAtEnd(a: seq<byte>, b: seq<byte>)
    ensures Stands(a + b, |a|, b)
  {
  }

  lemma JpegLayout(a: seq<byte>, b: seq<byte>, c: seq<byte>, d: seq<byte>)
    ensures var x := a + b + c + d; Stands(x, 0, a) && Stands(x, |a|, b) && Stands(x, |a| + |b|, c)
  {
  }

  lemma {:induction false} FindSofStops(b: seq<byte>, i: nat)
    ensures var r := FindSof(b, i); r.Some? ==> i <= r.value && b[r.value] == 0xFF && IsSof(b[r.value + 1])
    decreases |b| - i
  {
    if i + 3 < |b| {
      if b[i] != 0xFF {
        FindSofStops(b, i + 1);
      } else if !(IsSof(b[i + 1]) && i + 9 < |b|) {
        FindSofStops(b, i + 2 + Be16(b, i + 2));
      }
    }
  }

  /** No byte pair that looks like the marker of a SOF0 or SOF2 frame header. In entropy-coded data 0xFF is
      only followed by 0x00, a restart marker or the marker that ends the scan. */
  predicate NoSofPair(tail: seq<byte>) {
    forall k :: 0 <= k < |tail| - 1 ==> !(tail[k] == 0xFF && tail[k + 1] in {0xC0, 0xC2})
  }

  lemma NoSizeWhereItStands(b: seq<byte>, segs: seq<Segment>, tail: seq<byte>, defW: int, defH: int, defCh: int)
    requires (forall s :: s in segs ==> s.Valid()) && NoSofPair(tail) && |b| >= 4
    requires Stands(b, 0, [0xFF, 0xD8]) && Stands(b, 2, SegmentsBytes(segs))
    requires Stands(b, 2 + |SegmentsBytes(segs)|, tail) && |b| == 2 + |SegmentsBytes(segs)| + |tail|
    ensures Probe(b, defW, defH, defCh) == Unmeasured(defW, defH, defCh)
  {
    var i := 2 + |SegmentsBytes(segs)|;
    SkipsSegments(b, 2, segs);
    FindSofStops(b, i);
    forall j: nat | i <= j < |b| - 1
      ensures !(b[j] == 0xFF && IsSof(b[j + 1]))
    {
      StandsByte(b, i, tail, j - i);
      StandsByte(b, i, tail, j + 1 - i);
    }
    JpegBranch(b, defW, defH, defCh);
  }

  function Unmeasured(defW: int, defH: int, defCh: int): ImageInfo {
    var ch := if defCh > 0 then defCh else 3;
    ImageInfo("JPG", true, ch, if ch == 1 then "Mono" else "RGB", defW, defH)
  }

  /** A JPEG of another frame type reports the configured size and channels: any segments that are not
      SOF0 or SOF2, the frame header of the other type among them, then scan data. */
  lemma NoHeaderNoSize(segs: seq<Segment>, tail: seq<byte>, defW: int, defH: int, defCh: int)
    requires (forall s :: s in segs ==> s.Valid()) && NoSofPair(tail) && (segs != [] || |tail| >= 2)
    ensures Probe([0xFF, 0xD8] + SegmentsBytes(segs) + tail, defW, defH, defCh) == Unmeasured(defW, defH, defCh)
  {
    var b := [0xFF, 0xD8] + SegmentsBytes(segs) + tail;
    assert b == [0xFF, 0xD8] + SegmentsBytes(segs) + tail + [];
    JpegLayout([0xFF, 0xD8], SegmentsBytes(segs), tail, []);
    assert segs != [] ==> |SegmentsBytes(segs)| >= |SegmentBytes(segs[0])| >= 4;
    NoSizeWhereItStands(b, segs, tail, defW, defH, defCh);
  }

  // ---------------------------------------------------------------------------
  // The other formats that carry their size

  const LENGTH_LIMIT: nat := 0x1_0000_0000

  function LittleEndian(v: nat): seq<byte>
    requires v < LENGTH_LIMIT
  {
    [(v % 0x100) as byte, (v / 0x100 % 0x100) as byte, (v / 0x1_0000 % 0x100) as byte, (v / 0x100_0000 % 0x100) as byte]
  }

  function BigEndian(v: nat): seq<byte>
    requires v < LENGTH_LIMIT
  {
    [(v / 0x100_0000 % 0x100) as byte, (v / 0x1_0000 % 0x100) as byte, (v / 0x100 % 0x100) as byte, (v % 0x100) as byte]
  }

  lemma FourBytes(v: nat)
    requires v < LENGTH_LIMIT
    ensures v % 0x100 + 0x100 * (v / 0x100 % 0x100) + 0x1_0000 * (v / 0x1_0000 % 0x100) + 0x100_0000 * (v / 0x100_0000 % 0x100) == v
  {
    assert v / 0x1_0000 == (v / 0x100_0000) * 0x100 + v / 0x1_0000 % 0x100;
    assert v / 0x100 == (v / 0x1_0000) * 0x100 + v / 0x100 % 0x100;
  }

  lemma LittleEndianReads(b: seq<byte>, i: nat, v: nat)
    requires v < LENGTH_LIMIT && Stands(b, i, LittleEndian(v))
    ensures Le32(b, i) == v
  {
    FourBytes(v);
    forall k: nat | k < 4 ensures b[i + k] == LittleEndian(v)[k] { StandsByte(b, i, LittleEndian(v), k); }
  }

  lemma BigEndianReads(b: seq<byte>, i: nat, v: nat)
    requires v < LENGTH_LIMIT && Stands(b, i, BigEndian(v))
    ensures Be32(b, i) == v
  {
    FourBytes(v);
    forall k: nat | k < 4 ensures b[i + k] == BigEndian(v)[k] { StandsByte(b, i, BigEndian(v), k); }
  }

  lemma SignedFits(v: nat)
    requires v < LENGTH_LIMIT
    ensures Signed(v) == v <==> v < 0x8000_0000
    ensures v >= 0x8000_0000 ==> Signed(v) < 0
  {
  }

  /** The channels of the PNG colour types (greyscale, colour, palette, greyscale and colour with alpha) and
      their names in the header. */
  function Layout(colour: byte): (int, string) {
    if colour == 0 || colour == 3 then (1, "Mono")
    else if colour == 2 then (3, "RGB")
    else if colour == 4 then (2, "GRAYA")
    else (4, "RGBA")
  }

  lemma PngWhereItStands(b: seq<byte>, width: nat, height: nat, colour: byte, defW: int, defH: int, defCh: int)
    requires width < LENGTH_LIMIT && height < LENGTH_LIMIT && |b| >= 26 && Stands(b, 0, PNG)
    requires Stands(b, 16, BigEndian(width)) && Stands(b, 20, BigEndian(height)) && b[25] == colour
    ensures Probe(b, defW, defH, defCh)
            == ImageInfo("PNG", true, Layout(colour).0, Layout(colour).1, Signed(width), Signed(height))
  {
    StandsByte(b, 0, PNG, 0);
    BigEndianReads(b, 16, width);
    BigEndianReads(b, 20, height);
    assert b[0] == 0x89 && SIMR[0] == 0x53;
  }

  /** A PNG file (signature, then the IHDR chunk: sections 5.2 and 11.2.2 of ISO/IEC 15948) is measured
      right exactly when both sides fit the signed fields. */
  lemma PngIsMeasured(lead: seq<byte>, width: nat, height: nat, depth: byte, colour: byte, tail: seq<byte>, defW: int, defH: int, defCh: int)
    requires |lead| == 8 && width < 0x1_0000_0000 && height < 0x1_0000_0000
    ensures var signature: seq<byte> := [0x89, 0x50, 0x4E, 0x47, 0x0D, 0x0A, 0x1A, 0x0A];
            var info := Probe(signature + lead + (BigEndian(width) + BigEndian(height)) + ([depth, colour] + tail), defW, defH, defCh);
            && info.format == "PNG" && info.isEncoded && (info.channels, info.code) == Layout(colour)
            && ((info.width, info.height) == (width, height) <==> width < 0x8000_0000 && height < 0x8000_0000)
  {
    var x, y := BigEndian(width) + BigEndian(height), [depth, colour] + tail;
    var b := PNG + lead + x + y;
    JpegLayout(PNG, lead, x, y);
    StandsSplit(b, 16, BigEndian(width), BigEndian(height));
    assert b[25] == y[1];
    PngWhereItStands(b, width, height, colour, defW, defH, defCh);
    SignedFits(width);
    SignedFits(height);
  }

  /** The same for the raw test format: the letters SIMR, twelve bytes more, then both sides with the low
      byte first. */
  lemma RawIsMeasured(magic: seq<byte>, width: nat, height: nat, rows: seq<byte>, defW: int, defH: int, defCh: int)
    requires |magic| == 12 && width < 0x1_0000_0000 && height < 0x1_0000_0000
    ensures var simr: seq<byte> := ['S' as byte, 'I' as byte, 'M' as byte, 'R' as byte];
            var info := Probe(simr + magic + (LittleEndian(width) + LittleEndian(height)) + rows, defW, defH, defCh);
            && info == ImageInfo("raw_u8", false, 3, "RGB", Signed(width), Signed(height))
            && ((info.width, info.height) == (width, height) <==> width < 0x8000_0000 && height < 0x8000_0000)
  {
    var x := LittleEndian(width) + LittleEndian(height);
    var b := SIMR + magic + x + rows;
    JpegLayout(SIMR, magic, x, rows);
    StandsSplit(b, 16, LittleEndian(width), LittleEndian(height));
    LittleEndianReads(b, 16, width);
    LittleEndianReads(b, 20, height);
    SignedFits(width);
    SignedFits(height);
  }

  /** The bytes of a number, by place value. */
  lemma PlaceValues(v: nat)
    requires v < 0x1_0000_0000
    ensures var b := BigEndian(v);
            |b| == 4 && ((b[0] as nat * 256 + b[1] as nat) * 256 + b[2] as nat) * 256 + b[3] as nat == v
    ensures var b := LittleEndian(v);
            |b| == 4 && ((b[3] as nat * 256 + b[2] as nat) * 256 + b[1] as nat) * 256 + b[0] as nat == v
  {
    FourBytes(v);
  }

  /** Whatever its name: the first bytes decide the format, in this order, and everything that is none of
      these is raw with the configured size. */
  lemma FormatBySignature(b: seq<byte>, defW: int, defH: int, defCh: int)
    ensures var info := Probe(b, defW, defH, defCh);
            var raw := |b| >= 24 && b[0] == 0x53 && b[1] == 0x49 && b[2] == 0x4D && b[3] == 0x52;
            var jpg := !raw && |b| >= 4 && b[0] == 0xFF && b[1] == 0xD8;
            var png := !raw && !jpg && |b| >= 24 && b[..8] == [0x89, 0x50, 0x4E, 0x47, 0x0D, 0x0A, 0x1A, 0x0A];
            var tiff := !raw && !jpg && !png && |b| >= 4 && ((b[0] == 0x49 && b[1] == 0x49) || (b[0] == 0x4D && b[1] == 0x4D));
            && (info.format == "JPG" <==> jpg) && (info.format == "PNG" <==> png)
            && (info.isEncoded <==> jpg || png || tiff)
            && (png && |b| <= 25 ==> info.channels == 4 && info.code == "RGBA")
            && (tiff ==> info == ImageInfo("TIFF", true, if defCh > 0 then defCh else 3, "RGB", defW, defH))
            && (!raw && !jpg && !png && !tiff ==>
                  && info.format == "raw_u8" && info.channels == (if defCh > 0 then defCh else 4)
                  && info.code == (if info.channels == 4 then "BGRA" else "RGB")
                  && info.width == defW && info.height == defH)
  {
    if |b| >= 4 {
      assert b[..4] == [b[0], b[1], b[2], b[3]] && b[..2] == [b[0], b[1]];
    }
  }
}
