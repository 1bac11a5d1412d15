/** The publisher: one socket per group, and its counters. */
module DataPublisherModule {
  import opened Types
  import opened Counter64
  import opened Multipart

  /** A socket that may refuse any part: real high-water marks are not part of this model. */
  class PubSocket {
    var parts: seq<Part>

    constructor ()
      ensures parts == []
    {
      parts := [];
    }

    method Send(p: Part) returns (ok: bool)
      modifies this
      ensures parts == if ok then old(parts) + [p] else old(parts)
    {
      ok := *;
      if ok { parts := parts + [p]; }
    }
  }

  function CountFull(log: seq<Attempt>): nat {
    if log == [] then 0 else CountFull(log[..|log| - 1]) + (if log[|log| - 1].Full() then 1 else 0)
  }

  function CountPartial(log: seq<Attempt>): nat {
    if log == [] then 0 else CountPartial(log[..|log| - 1]) + (if log[|log| - 1].Full() then 0 else 1)
  }

  /** Every frame attempted is counted once: as sent or as dropped. */
  lemma {:induction false} CountsCover(log: seq<Attempt>)
    ensures CountFull(log) + CountPartial(log) == |log|
    ensures CountFull(log) == |SentMessages(log)|
  {
    if log != [] { CountsCover(log[..|log| - 1]); }
  }

  lemma LogAppend(log: seq<Attempt>, a: Attempt)
    requires AllValid(log) && a.Valid()
    ensures AllValid(log + [a])
    ensures Wire(log + [a]) == Wire(log) + a.message[..a.taken]
    ensures CountFull(log + [a]) == CountFull(log) + (if a.Full() then 1 else 0)
    ensures CountPartial(log + [a]) == CountPartial(log) + (if a.Full() then 0 else 1)
  {
    assert (log + [a])[..|log|] == log;
  }

  /** A socket holds the parts of its group's log, and the counter the number of complete sends. */
  ghost predicate Tallied(parts: seq<Part>, log: seq<Attempt>, sent: Word, pubId: string) {
    AllValid(log) && Framed(log, pubId) && parts == Wire(log) && sent == Wrap(CountFull(log))
  }

  lemma TalliedStep(parts: seq<Part>, log: seq<Attempt>, sent: Word, pubId: string, a: Attempt)
    requires Tallied(parts, log, sent, pubId) && a.Valid() && a.message == Message(a.frame, pubId)
    ensures Tallied(parts + a.message[..a.taken], log + [a], if a.Full() then Wrap(sent + 1) else sent, pubId)
  {
    LogAppend(log, a);
    WrapNext(CountFull(log));
  }

  function AllPartial(log: PerGroup<seq<Attempt>>): nat {
    CountPartial(log.visual2D) + CountPartial(log.visual3D) + CountPartial(log.sensorData)
  }

  lemma DroppedAppend(log: PerGroup<seq<Attempt>>, g: Group, a: Attempt)
    ensures AllPartial(Put(log, g, log.At(g) + [a])) == AllPartial(log) + (if a.Full() then 0 else 1)
  {
    assert (log.At(g) + [a])[..|log.At(g)|] == log.At(g);
  }

  class DataPublisher {
    const pubId: string
    const sock2d: PubSocket
    const sock3d: PubSocket
    const sockSensor: PubSocket
    var sent2d: Word
    var sent3d: Word
    var sentSensor: Word
    var droppedHwm: Word
    var hasSockets: bool                         // start() has created the sockets
    ghost var log: PerGroup<seq<Attempt>>    // every call of send_multipart, by group

    function Socket(g: Group): PubSocket {
      match g
      case Visual2D => sock2d
      case Visual3D => sock3d
      case SensorData => sockSensor
    }

    function Sent(g: Group): Word
      reads this
    {
      match g
      case Visual2D => sent2d
      case Visual3D => sent3d
      case SensorData => sentSensor
    }

    ghost function Dropped(): nat
      reads this
    {
      AllPartial(log)
    }

    ghost predicate Valid()
      reads this, sock2d, sock3d, sockSensor
    {
      && sock2d != sock3d && sock2d != sockSensor && sock3d != sockSensor
      && Tallied(sock2d.parts, log.visual2D, sent2d, pubId)
      && Tallied(sock3d.parts, log.visual3D, sent3d, pubId)
      && Tallied(sockSensor.parts, log.sensorData, sentSensor, pubId)
      && droppedHwm == Wrap(Dropped())
    }

    constructor (pubId: string)
      ensures Valid() && this.pubId == pubId && log == PerGroup([], [], []) && !hasSockets
      ensures fresh(sock2d) && fresh(sock3d) && fresh(sockSensor)
    {
      this.pubId := pubId;
      sock2d := new PubSocket();
      sock3d := new PubSocket();
      sockSensor := new PubSocket();
      sent2d, sent3d, sentSensor, droppedHwm := 0, 0, 0, 0;
      hasSockets := false;
      log := PerGroup([], [], []);
    }

    /** What start() does to the sockets. */
    method Open()
      requires Valid()
      modifies `hasSockets
      ensures Valid() && hasSockets
    {
      hasSockets := true;
    }

    /** The part list of the header. */
    method Describe(frame: Frame) returns (infos: seq<PartInfo>)
      ensures infos == HeaderOf(frame, pubId).parts
    {
      infos := [];
      var j := 0;
      while j < |frame.bundles|
        invariant 0 <= j <= |frame.bundles| && |infos| == j
        invariant forall i :: 0 <= i < j ==> infos[i] == InfoOf(frame.bundles[i])
      {
        infos := infos + [InfoOf(frame.bundles[j])];
        j := j + 1;
      }
    }

    /** Sends header and payloads in order until the socket refuses one. */
    method SendParts(sock: PubSocket, frame: Frame) returns (taken: nat)
      modifies sock
      ensures taken <= |Message(frame, pubId)|
      ensures sock.parts == old(sock.parts) + Message(frame, pubId)[..taken]
    {
      var n := |frame.bundles|;
      var infos := Describe(frame);
      var header := Header(frame.group, frame.tsSec, frame.tsNsec, frame.pairId, PubIdOf(frame, pubId), frame.frameIndex, infos);
      ghost var m, was := Message(frame, pubId), sock.parts;
      HeaderFirst(frame, pubId);
      var ok := sock.Send(Part(HeaderText(header), n != 0));
      if !ok {
        return 0;
      }
      var i := 0;
      while i < n
        invariant 0 <= i <= n
        invariant |m| == n + 1 && sock.parts == was + m[..i + 1]
      {
        PayloadNext(frame, pubId, i);
        ok := sock.Send(Part(Payload(frame.bundles[i].data), i + 1 < n));
        if !ok {
          return i + 1;
        }
        i := i + 1;
      }
      taken := n + 1;
    }

    /** All groups but one agree with their logs. */
    ghost predicate OthersTallied(g: Group)
      reads this, sock2d, sock3d, sockSensor
    {
      && (g != Visual2D ==> Tallied(sock2d.parts, log.visual2D, sent2d, pubId))
      && (g != Visual3D ==> Tallied(sock3d.parts, log.visual3D, sent3d, pubId))
      && (g != SensorData ==> Tallied(sockSensor.parts, log.sensorData, sentSensor, pubId))
    }

    method CountDrop(g: Group, ghost groupLog: seq<Attempt>)
      requires sock2d != sock3d && sock2d != sockSensor && sock3d != sockSensor
      requires OthersTallied(g) && droppedHwm == Wrap(AllPartial(log))
      requires AllPartial(Put(log, g, groupLog)) == AllPartial(log) + 1
      requires Tallied(Socket(g).parts, groupLog, Sent(g), pubId)
      modifies `droppedHwm, `log
      ensures Valid() && log == Put(old(log), g, groupLog)
    {
      WrapNext(AllPartial(log));
      ghost var was := log;
      log := Put(log, g, groupLog);
      droppedHwm := Wrap(droppedHwm + 1);
      assert forall o :: o != g ==> log.At(o) == was.At(o);
    }

    method CountSent(g: Group, ghost groupLog: seq<Attempt>)
      requires sock2d != sock3d && sock2d != sockSensor && sock3d != sockSensor
      requires OthersTallied(g) && droppedHwm == Wrap(AllPartial(log))
      requires AllPartial(Put(log, g, groupLog)) == AllPartial(log)
      requires Tallied(Socket(g).parts, groupLog, Wrap(Sent(g) + 1), pubId)
      modifies `sent2d, `sent3d, `sentSensor, `log
      ensures Valid() && log == Put(old(log), g, groupLog)
    {
      log := Put(log, g, groupLog);
      match g {
        case Visual2D => sent2d := Wrap(sent2d + 1);
        case Visual3D => sent3d := Wrap(sent3d + 1);
        case SensorData => sentSensor := Wrap(sentSensor + 1);
      }
      assert Tallied(sock2d.parts, log.visual2D, sent2d, pubId);
      assert Tallied(sock3d.parts, log.visual3D, sent3d, pubId);
      assert Tallied(sockSensor.parts, log.sensorData, sentSensor, pubId);
    }

    /** send_multipart for the socket of the frame's group: exactly one counter moves. */
    method SendMultipart(frame: Frame) returns (ok: bool, ghost taken: nat)
      requires Valid()
      modifies `sent2d, `sent3d, `sentSensor, `droppedHwm, `log, Socket(frame.group)
      ensures Valid()
      ensures var a := Attempt(frame, Message(frame, pubId), taken);
              a.Valid() && (ok <==> a.Full()) && log == Put(old(log), frame.group, old(log).At(frame.group) + [a])
    {
      var g := frame.group;
      TalliedGroup(g);
      var k := SendParts(Socket(g), frame);
      taken := k;
      ok := k == 1 + |frame.bundles|;
      ghost var a := Attempt(frame, Message(frame, pubId), taken);
      MessageEnds(frame, pubId);
      TalliedStep(old(Socket(g).parts), log.At(g), Sent(g), pubId, a);
      DroppedAppend(log, g, a);
      if ok {
        CountSent(g, log.At(g) + [a]);
      } else {
        CountDrop(g, log.At(g) + [a]);
      }
    }

    /** One frame goes to the socket of its group. Before start() has created the sockets it is ignored. */
    method SendGroup(frame: Frame) returns (ok: bool, ghost taken: nat)
      requires Valid()
      modifies `sent2d, `sent3d, `sentSensor, `droppedHwm, `log, Socket(frame.group)
      ensures Valid()
      ensures !hasSockets ==>
                && !ok && log == old(log) && Socket(frame.group).parts == old(Socket(frame.group).parts)
                && (forall g :: Sent(g) == old(Sent(g))) && droppedHwm == old(droppedHwm)
      ensures hasSockets ==>
                var a := Attempt(frame, Message(frame, pubId), taken);
                a.Valid() && (ok <==> a.Full()) && log == Put(old(log), frame.group, old(log).At(frame.group) + [a])
    {
      ok, taken := false, 0;
      if hasSockets {
        ok, taken := SendMultipart(frame);
      }
    }

    lemma TalliedGroup(g: Group)
      requires Valid()
      ensures Tallied(Socket(g).parts, log.At(g), Sent(g), pubId)
    {
    }

    /** One round of the publisher loop: the frames of a batch, in order. */
    method PublishBatch(frames: seq<Frame>)
      requires Valid()
      modifies `sent2d, `sent3d, `sentSensor, `droppedHwm, `log, sock2d, sock3d, sockSensor
      ensures Valid()
      ensures Advanced(old(log), log, if hasSockets then frames else [])
    {
      ghost var from := log;
      var i := 0;
      while i < |frames|
        invariant 0 <= i <= |frames| && Valid()
        invariant Advanced(from, log, if hasSockets then frames[..i] else [])
      {
        ghost var before := log;
        var ok, taken := SendGroup(frames[i]);
        assert frames[..i + 1] == frames[..i] + [frames[i]];
        AdvancedStep(from, before, frames[..i], Attempt(frames[i], Message(frames[i], pubId), taken));
        i := i + 1;
      }
      assert frames[..i] == frames;
    }
  }

  /** Every group's log has grown by the frames of that group, in their order. */
  ghost predicate Advanced(from: PerGroup<seq<Attempt>>, to: PerGroup<seq<Attempt>>, frames: seq<Frame>) {
    forall g :: Attempted(to.At(g)) == Attempted(from.At(g)) + OfGroup(frames, g)
  }

  lemma AdvancedStep(from: PerGroup<seq<Attempt>>, to: PerGroup<seq<Attempt>>, frames: seq<Frame>, a: Attempt)
    ensures Advanced(from, to, frames) ==> Advanced(from, Put(to, a.frame.group, to.At(a.frame.group) + [a]), frames + [a.frame])
  {
    var to' := Put(to, a.frame.group, to.At(a.frame.group) + [a]);
    AttemptedAppend(to.At(a.frame.group), a);
    forall g | Advanced(from, to, frames)
      ensures Attempted(to'.At(g)) == Attempted(from.At(g)) + OfGroup(frames + [a.frame], g)
    {
      OfGroupAppend(frames, a.frame, g);
      assert Attempted(to.At(g)) == Attempted(from.At(g)) + OfGroup(frames, g);
    }
  }

  /** The frames of a log, in the order they were attempted. */
  function Attempted(log: seq<Attempt>): seq<Frame> {
    if log == [] then [] else Attempted(log[..|log| - 1]) + [log[|log| - 1].frame]
  }

  lemma AttemptedAppend(log: seq<Attempt>, a: Attempt)
    ensures Attempted(log + [a]) == Attempted(log) + [a.frame]
  {
    assert (log + [a])[..|log|] == log;
  }
}
