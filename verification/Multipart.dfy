/** How a frame is cut into message parts, and how a subscriber puts the parts together again. */
module Multipart {
  import opened Types

  datatype ImageMeta = ImageMeta(isEncoded: bool, channels: int, code: string, width: int, height: int,
                                 rightChannels: Option<int>, rightCode: Option<string>)

  datatype PartInfo = PartInfo(id: string, size: nat, format: string, image: Option<ImageMeta>)

  datatype Header = Header(group: Group, tsSec: int, tsNsec: int, pairId: nat, pubId: string, frameIndex: nat, parts: seq<PartInfo>)

  datatype Content = HeaderText(header: Header) | Payload(data: seq<byte>)

  /** What the socket is given: the bytes of one part and whether more parts of the message follow. */
  datatype Part = Part(content: Content, more: bool)

  function InfoOf(b: Bundle): PartInfo {
    PartInfo(b.partId, |b.data|, b.format,
             if b.width > 0 then
               Some(ImageMeta(b.isEncoded, b.channels, b.code, b.width, b.height,
                              if b.rightChannels > 0 then Some(b.rightChannels) else None,
                              if b.rightCode != "" then Some(b.rightCode) else None))
             else None)
  }

  function PubIdOf(f: Frame, pubId: string): string { if f.pubId == "" then pubId else f.pubId }

  function HeaderOf(f: Frame, pubId: string): Header {
    Header(f.group, f.tsSec, f.tsNsec, f.pairId, PubIdOf(f, pubId), f.frameIndex,
           seq(|f.bundles|, i requires 0 <= i < |f.bundles| => InfoOf(f.bundles[i])))
  }

  /** The header, then one payload for each bundle; all but the last part announce more. */
  function Message(f: Frame, pubId: string): (m: seq<Part>)
    ensures |m| == 1 + |f.bundles|
  {
    [Part(HeaderText(HeaderOf(f, pubId)), f.bundles != [])]
    + seq(|f.bundles|, i requires 0 <= i < |f.bundles| => Part(Payload(f.bundles[i].data), i + 1 < |f.bundles|))
  }

  lemma HeaderFirst(f: Frame, pubId: string)
    ensures Message(f, pubId)[..1] == [Part(HeaderText(HeaderOf(f, pubId)), f.bundles != [])]
    ensures Message(f, pubId)[..0] == []
  {
  }

  lemma PayloadNext(f: Frame, pubId: string, i: nat)
    requires i < |f.bundles|
    ensures Message(f, pubId)[..i + 2]
            == Message(f, pubId)[..i + 1] + [Part(Payload(f.bundles[i].data), i + 1 < |f.bundles|)]
  {
  }

  /** One call of send_multipart: the socket took this many parts before it refused one, or all of them. */
  datatype Attempt = Attempt(frame: Frame, message: seq<Part>, taken: nat) {
    predicate Valid() { taken <= |message| && OneMessage(message) }
    predicate Full() { taken == |message| }
  }

  /** Every part but the last announces another one. */
  predicate OneMessage(m: seq<Part>) {
    m != [] && !m[|m| - 1].more && forall i :: 0 <= i < |m| - 1 ==> m[i].more
  }

  predicate AllValid(log: seq<Attempt>) { forall a :: a in log ==> a.Valid() }

  /** Every attempt was one at the message of its frame. */
  predicate Framed(log: seq<Attempt>, pubId: string) { forall a :: a in log ==> a.message == Message(a.frame, pubId) }

  /** The parts on the socket after a series of attempts. */
  function Wire(log: seq<Attempt>): seq<Part>
    requires AllValid(log)
  {
    if log == [] then []
    else
      var last := log[|log| - 1];
      assert last in log;
      Wire(log[..|log| - 1]) + last.message[..last.taken]
  }

  /** The messages of the frames that were sent completely. */
  function SentMessages(log: seq<Attempt>): seq<seq<Part>> {
    if log == [] then []
    else
      var last := log[|log| - 1];
      SentMessages(log[..|log| - 1]) + (if last.Full() then [last.message] else [])
  }

  /** A subscriber ends a message where no more parts are announced: whole messages, and what is left. */
  function Split(parts: seq<Part>): (seq<seq<Part>>, seq<Part>) {
    if parts == [] then ([], [])
    else
      var (whole, rest) := Split(parts[..|parts| - 1]);
      var last := parts[|parts| - 1];
      if last.more then (whole, rest + [last]) else (whole + [rest + [last]], [])
  }

  function Flatten(ms: seq<seq<Part>>): seq<Part> {
    if ms == [] then [] else Flatten(ms[..|ms| - 1]) + ms[|ms| - 1]
  }

  lemma {:induction false} SplitMore(parts: seq<Part>, tail: seq<Part>)
    requires forall i :: 0 <= i < |tail| ==> tail[i].more
    ensures Split(parts + tail) == (Split(parts).0, Split(parts).1 + tail)
    decreases |tail|
  {
    if tail == [] {
      assert parts + tail == parts && Split(parts).1 + tail == Split(parts).1;
    } else {
      var init := tail[..|tail| - 1];
      SplitMore(parts, init);
      assert (parts + tail)[..|parts + tail| - 1] == parts + init;
      assert (Split(parts).1 + init) + [tail[|tail| - 1]] == Split(parts).1 + tail;
    }
  }

  lemma MessageEnds(f: Frame, pubId: string)
    ensures OneMessage(Message(f, pubId))
  {
  }

  /** A whole message ends whatever stood open before it. */
  lemma SplitMessage(parts: seq<Part>, m: seq<Part>)
    requires OneMessage(m)
    ensures Split(parts + m) == (Split(parts).0 + [Split(parts).1 + m], [])
  {
    var init := m[..|m| - 1];
    SplitMore(parts, init);
    assert (parts + m)[..|parts + m| - 1] == parts + init;
    assert (Split(parts).1 + init) + [m[|m| - 1]] == Split(parts).1 + m;
  }

  lemma {:induction false} SplitLosesNothing(parts: seq<Part>)
    ensures Flatten(Split(parts).0) + Split(parts).1 == parts
  {
    if parts != [] {
      var init, last := parts[..|parts| - 1], parts[|parts| - 1];
      SplitLosesNothing(init);
      var (whole, rest) := Split(init);
      if !last.more {
        var w := whole + [rest + [last]];
        assert w[..|w| - 1] == whole;
        assert Flatten(w) == Flatten(whole) + (rest + [last]);
      }
    }
  }

  /** No message was refused after its header had been taken. */
  predicate RefusedAtHeaderOnly(log: seq<Attempt>) {
    forall a :: a in log ==> a.Full() || a.taken == 0
  }

  predicate Partial(a: Attempt) { 0 < a.taken < |a.message| }

  /** No message was sent completely after one that was refused in the middle. */
  predicate PartialsLast(log: seq<Attempt>) {
    forall i, j :: 0 <= i < j < |log| && Partial(log[i]) ==> !log[j].Full()
  }

  lemma SplitPartial(parts: seq<Part>, m: seq<Part>, taken: nat)
    requires OneMessage(m) && taken < |m|
    ensures Split(parts + m[..taken]) == (Split(parts).0, Split(parts).1 + m[..taken])
  {
    SplitMore(parts, m[..taken]);
  }

  lemma PartialsLastStep(log: seq<Attempt>)
    requires log != [] && AllValid(log)
    ensures var (init, last) := (log[..|log| - 1], log[|log| - 1]);
            && AllValid(init) && last.Valid()
            && (PartialsLast(log) <==> PartialsLast(init) && (last.Full() ==> RefusedAtHeaderOnly(init)))
            && (RefusedAtHeaderOnly(log) <==> RefusedAtHeaderOnly(init) && !Partial(last))
  {
    var init, last := log[..|log| - 1], log[|log| - 1];
    assert forall a :: a in log <==> a in init || a == last;
    if PartialsLast(log) && last.Full() {
      forall a | a in init
        ensures !Partial(a)
      {
        var i :| 0 <= i < |init| && init[i] == a;
        assert log[i] == a;
      }
    }
    assert forall i :: 0 <= i < |init| ==> log[i] == init[i] && init[i] in init;
  }

  /** What stood open on the wire is glued to the next complete message. */
  lemma GluedMessage(whole: seq<seq<Part>>, sent: seq<seq<Part>>, left: seq<Part>, m: seq<Part>)
    requires |whole| == |sent|
    ensures whole + [left + m] == sent + [m] <==> whole == sent && left == []
  {
    var x, y := whole + [left + m], sent + [m];
    assert x[|whole|] == left + m && y[|sent|] == m && |left + m| == |left| + |m|;
    assert x[..|whole|] == whole && y[..|sent|] == sent;
    assert left == [] ==> left + m == m;
  }

  lemma WireStep(log: seq<Attempt>)
    requires log != [] && AllValid(log)
    ensures var (init, last) := (log[..|log| - 1], log[|log| - 1]);
            && AllValid(init) && last.Valid()
            && var (whole, left) := Split(Wire(init));
            && Split(Wire(log)) == (if last.Full() then (whole + [left + last.message], [])
                                    else (whole, left + last.message[..last.taken]))
  {
    var init, last := log[..|log| - 1], log[|log| - 1];
    assert last in log && forall a :: a in init ==> a in log;
    if last.Full() {
      assert last.message[..last.taken] == last.message;
      SplitMessage(Wire(init), last.message);
    } else {
      SplitPartial(Wire(init), last.message, last.taken);
    }
  }

  lemma {:induction false} Recovery(log: seq<Attempt>)
    requires AllValid(log)
    ensures |Split(Wire(log)).0| == |SentMessages(log)|
    ensures Split(Wire(log)).0 == SentMessages(log) <==> PartialsLast(log)
    ensures PartialsLast(log) ==> (Split(Wire(log)).1 == [] <==> RefusedAtHeaderOnly(log))
  {
    if log != [] {
      var init, last := log[..|log| - 1], log[|log| - 1];
      PartialsLastStep(log);
      WireStep(log);
      Recovery(init);
      var (whole, left) := Split(Wire(init));
      if last.Full() {
        assert SentMessages(log) == SentMessages(init) + [last.message];
        GluedMessage(whole, SentMessages(init), left, last.message);
      } else {
        assert SentMessages(log) == SentMessages(init);
        assert |left + last.message[..last.taken]| == |left| + last.taken;
      }
    }
  }

  /** A subscriber recovers exactly the messages that were sent exactly when none of them was sent after
      one that was refused in the middle, to whose parts it would be glued. */
  lemma SentMessagesRecovered(log: seq<Attempt>)
    requires AllValid(log)
    ensures Split(Wire(log)).0 == SentMessages(log) <==> PartialsLast(log)
  {
    Recovery(log);
  }

  /** Failing case: a frame is refused after its header, the next try succeeds, and the subscriber sees one
      message with two headers. */
  lemma MessagesGlued(f: Frame, pubId: string)
    requires f.bundles != []
    ensures var m := Message(f, pubId);
            var log := [Attempt(f, m, 1)] + [Attempt(f, m, |m|)];
            AllValid(log) && SentMessages(log) == [m] && Split(Wire(log)) == ([m[..1] + m], [])
  {
    MessageEnds(f, pubId);
    TwoHeaders(f, Message(f, pubId));
  }

  lemma TwoHeaders(f: Frame, m: seq<Part>)
    requires OneMessage(m) && |m| > 1
    ensures var log := [Attempt(f, m, 1)] + [Attempt(f, m, |m|)];
            AllValid(log) && SentMessages(log) == [m] && Split(Wire(log)) == ([m[..1] + m], [])
  {
    var first, second := Attempt(f, m, 1), Attempt(f, m, |m|);
    OneAttempt(first);
    Appended([first], second);
    assert m[..|m|] == m;
    assert [] + m[..1] == m[..1];
    SplitPartial([], m, 1);
    assert Split(m[..1]) == ([], m[..1]);
    SplitMessage(m[..1], m);
    assert [] + [m] == [m] && [] + [m[..1] + m] == [m[..1] + m];
  }

  lemma OneAttempt(a: Attempt)
    requires a.Valid()
    ensures AllValid([a]) && Wire([a]) == a.message[..a.taken]
    ensures SentMessages([a]) == if a.Full() then [a.message] else []
  {
    Appended([], a);
    assert [] + [a] == [a] && [] + a.message[..a.taken] == a.message[..a.taken];
  }

  lemma Appended(log: seq<Attempt>, a: Attempt)
    requires AllValid(log) && a.Valid()
    ensures AllValid(log + [a])
    ensures Wire(log + [a]) == Wire(log) + a.message[..a.taken]
    ensures SentMessages(log + [a]) == SentMessages(log) + (if a.Full() then [a.message] else [])
  {
    assert (log + [a])[..|log|] == log;
  }

  /** On top of that nothing is left open exactly when the socket never refused in the middle of a message. */
  lemma FramingRoundTrip(log: seq<Attempt>)
    requires AllValid(log)
    ensures Split(Wire(log)) == (SentMessages(log), []) <==> RefusedAtHeaderOnly(log)
  {
    Recovery(log);
    if RefusedAtHeaderOnly(log) {
      assert forall i :: 0 <= i < |log| ==> log[i] in log;
    }
  }

  // ---------------------------------------------------------------------------
  // Reading one message

  function BundleFrom(info: PartInfo, data: seq<byte>): Option<Bundle> {
    match TypeNamed(info.id)
    case None => None
    case Some(t) =>
      Some(match info.image
           case None => Bundle(t, info.id, data, info.format, false, 0, "", 0, "", 0, 0)
           case Some(im) =>
             Bundle(t, info.id, data, info.format, im.isEncoded, im.channels, im.code,
                    match im.rightChannels case Some(c) => c case None => 0,
                    match im.rightCode case Some(c) => c case None => "", im.width, im.height))
  }

  /** The part entry says everything about the bundle. */
  predicate Describable(b: Bundle) {
    && b.partId == NameOf(b.dataType)
    && (b.width > 0 || b == Bundle(b.dataType, b.partId, b.data, b.format, false, 0, "", 0, "", 0, 0))
    && b.rightChannels >= 0
  }

  lemma BundleRoundTrip(b: Bundle)
    ensures BundleFrom(InfoOf(b), b.data) == Some(b) <==> Describable(b)
  {
    NamesAreDistinct(b.dataType);
  }

  /** The header lists the payloads that follow it, in order, with their sizes. */
  predicate Consistent(m: seq<Part>) {
    && m != [] && m[0].content.HeaderText?
    && |m[0].content.header.parts| == |m| - 1
    && forall i :: 0 <= i < |m| - 1 ==>
         m[i + 1].content.Payload? && |m[i + 1].content.data| == m[0].content.header.parts[i].size
  }

  ghost predicate Carries(m: seq<Part>, f: Frame) {
    && Consistent(m)
    && var h := m[0].content.header;
    && f == Frame(h.group, h.tsSec, h.tsNsec, h.pairId, h.frameIndex, h.pubId, f.bundles)
    && |f.bundles| == |m| - 1
    && forall i :: 0 <= i < |f.bundles| ==> BundleFrom(h.parts[i], m[i + 1].content.data) == Some(f.bundles[i])
  }

  lemma MessageConsistent(f: Frame, pubId: string)
    ensures Consistent(Message(f, pubId))
  {
    var m := Message(f, pubId);
    forall i | 0 <= i < |m| - 1
      ensures m[i + 1].content == Payload(f.bundles[i].data)
    {
    }
  }

  /** A message carries one frame at most: the one sent, with the publisher's id filled in. */
  lemma MessageCarriesFrame(f: Frame, pubId: string, g: Frame)
    requires forall b :: b in f.bundles ==> Describable(b)
    ensures Carries(Message(f, pubId), g) <==> g == f.(pubId := if f.pubId == "" then pubId else f.pubId)
  {
    var m := Message(f, pubId);
    var h := HeaderOf(f, pubId);
    MessageConsistent(f, pubId);
    assert m[0].content == HeaderText(h);
    forall i | 0 <= i < |f.bundles|
      ensures BundleFrom(h.parts[i], m[i + 1].content.data) == Some(f.bundles[i])
    {
      BundleRoundTrip(f.bundles[i]);
    }
    if Carries(m, g) {
      assert g.bundles == f.bundles;
    }
  }
}
