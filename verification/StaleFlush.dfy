/** What every history of commands, capture ticks and pops keeps: session safety and the stale flush. */
module StaleFlush {
  import opened Types
  import opened Text
  import opened Json
  import opened Channels
  import opened Parameters
  import opened Commands

  /** One atomic step: a request, the part of a capture tick that serves one group, or one pop. */
  datatype Event =
    | Request(command: Command, body: Json, client: string)
    | TickGroup(g: Group, frame: Frame)
    | PopOne(g: Group)

  /** The capture tick pushes for active groups only, and only frames that carry something; a full
      queue refuses. */
  function Offer(r: Registry, q: PerGroup<seq<Frame>>, capacity: nat, g: Group, frame: Frame): PerGroup<seq<Frame>> {
    if GroupActive(r, g) && frame.bundles != [] && |q.At(g)| < capacity then Put(q, g, q.At(g) + [frame]) else q
  }

  function Next(s: Service, e: Event): Service {
    match e
    case Request(command, body, client) => Handle(s, command, body, client).0
    case TickGroup(g, frame) => s.(queues := Offer(s.registry, s.queues, s.capacity, g, frame))
    case PopOne(g) =>
      if s.queues.At(g) == [] then s else s.(queues := Put(s.queues, g, s.queues.At(g)[1..]))
  }

  function Replay(s: Service, events: seq<Event>): Service
    decreases |events|
  {
    if events == [] then s else Replay(Next(s, events[0]), events[1..])
  }

  function Fresh(capacity: nat, params: map<string, Parameter>): Service {
    Service({}, Registry(map[], {}, {}), NoFrames(), params, capacity)
  }

  /** Subscriptions belong to sessions. */
  predicate SessionsCover(s: Service) {
    s.registry.clients.Keys <= s.sessions
  }

  /** Some type has a subscriber, or a group nobody keeps active has nothing queued. */
  predicate Flushed(s: Service) {
    AnySubscriber(s.registry) || Quiet(s)
  }

  predicate Quiet(s: Service) {
    forall g :: !GroupActive(s.registry, g) ==> s.queues.At(g) == []
  }

  lemma StartSubscribes(s: Service, body: Json, client: string)
    requires client in s.sessions && Expand(body) != []
    ensures AnySubscriber(DoStart(s, body, client).0.registry)
  {
    var r := DoStart(s, body, client).0.registry;
    assert Expand(body)[0] in r.clients[client];
  }

  lemma ActivationWidens(r: Registry, t: DataType, g: Group)
    requires GroupActive(r, g)
    ensures GroupActive(Activate(r, t), g)
  {
    var u :| u in Members(g) && Active(r, u);
    assert Active(Activate(r, t), u);
  }

  /** Lowering a force flag concerns the group of its type only. */
  lemma DeactivationIsLocal(r: Registry, t: DataType, g: Group)
    requires g != GroupOf(t)
    ensures GroupActive(Deactivate(r, t), g) <==> GroupActive(r, g)
  {
    assert t !in Members(g);
    assert forall u :: u != t ==> (Active(Deactivate(r, t), u) <==> Active(r, u));
  }

  lemma ActivateKeeps(s: Service, body: Json)
    requires SessionsCover(s) && Flushed(s)
    ensures var s' := DoActivate(s, body).0; SessionsCover(s') && Flushed(s')
  {
    var s' := DoActivate(s, body).0;
    if NamedType(body).Type? {
      forall g | GroupActive(s.registry, g)
        ensures GroupActive(s'.registry, g)
      {
        ActivationWidens(s.registry, NamedType(body).t, g);
      }
      assert AnySubscriber(s.registry) ==> AnySubscriber(s'.registry);
    }
  }

  lemma DeactivateKeeps(s: Service, body: Json)
    requires SessionsCover(s) && Flushed(s)
    ensures var s' := DoDeactivate(s, body).0; SessionsCover(s') && Flushed(s')
  {
    var s' := DoDeactivate(s, body).0;
    if NamedType(body).Type? {
      forall g | g != GroupOf(NamedType(body).t)
        ensures GroupActive(s'.registry, g) <==> GroupActive(s.registry, g)
      {
        DeactivationIsLocal(s.registry, NamedType(body).t, g);
      }
      assert AnySubscriber(s.registry) ==> AnySubscriber(s'.registry);
    }
  }

  lemma RequestKeeps(s: Service, command: Command, body: Json, client: string)
    requires SessionsCover(s) && Flushed(s)
    ensures var s' := Handle(s, command, body, client).0; SessionsCover(s') && Flushed(s')
  {
    if command == ToStart {
      if client in s.sessions && Expand(body) != [] { StartSubscribes(s, body, client); }
    } else if command == ToActivate {
      ActivateKeeps(s, body);
    } else if command == ToDeactivate {
      DeactivateKeeps(s, body);
    }
  }

  lemma {:induction false} ReplayKeeps(s: Service, events: seq<Event>)
    requires SessionsCover(s) && Flushed(s)
    ensures var s' := Replay(s, events); SessionsCover(s') && Flushed(s')
    decreases |events|
  {
    if events != [] {
      match events[0] {
        case Request(command, body, client) => RequestKeeps(s, command, body, client);
        case _ =>
      }
      ReplayKeeps(Next(s, events[0]), events[1..]);
    }
  }

  /** Over every history: without subscribers no inactive group keeps stale frames, and subscriptions
      never outnumber sessions. */
  lemma EveryHistoryIsFlushed(capacity: nat, params: map<string, Parameter>, events: seq<Event>)
    ensures var s := Replay(Fresh(capacity, params), events);
            && Flushed(s)
            && SessionsCover(s)
            && |s.registry.clients| <= |s.sessions|
  {
    ReplayKeeps(Fresh(capacity, params), events);
    var s := Replay(Fresh(capacity, params), events);
    SubsetSize(s.registry.clients.Keys, s.sessions);
  }

  lemma SubsetSize<T>(a: set<T>, b: set<T>)
    requires a <= b
    ensures |a| <= |b|
  {
    assert b == a + (b - a);
  }

  /** A stop without a session is accepted, but no subscription changes. */
  lemma StopWithoutSession(capacity: nat, params: map<string, Parameter>, events: seq<Event>, body: Json, client: string)
    requires client !in Replay(Fresh(capacity, params), events).sessions
    ensures var s := Replay(Fresh(capacity, params), events);
            DoStop(s, body, client).0.registry == s.registry
  {
    ReplayKeeps(Fresh(capacity, params), events);
  }

  // ---------------------------------------------------------------------------
  // The documented flush: a group that falls silent is drained

  /** The types the request takes out of the client's set. */
  function Dropped(s: Service, command: Command, body: Json, client: string): set<DataType> {
    match command
    case ToStop => TypeSet(Expand(body))
    case ToDisconnect => if client in s.sessions then Subs(s.registry, client) else {}
    case _ => {}
  }

  /** Somebody holds the type, and not only what the request takes away. */
  predicate StillHeld(r: Registry, client: string, dropped: set<DataType>, c: string, t: DataType) {
    c in r.clients && t in r.clients[c] && !(c == client && t in dropped)
  }

  /** The group is active now, and nothing but what the request takes away keeps it so. */
  ghost predicate HangsOn(r: Registry, client: string, dropped: set<DataType>, g: Group) {
    && GroupActive(r, g)
    && forall t :: t in Members(g) ==> t !in r.forced && forall c :: !StillHeld(r, client, dropped, c, t)
  }

  ghost predicate SubscriberRemains(r: Registry, client: string, dropped: set<DataType>) {
    exists c, t :: StillHeld(r, client, dropped, c, t)
  }

  /** What the capture loop can have queued. */
  ghost predicate Queueable(q: PerGroup<seq<Frame>>, capacity: nat) {
    forall g :: |q.At(g)| <= capacity && forall f :: f in q.At(g) ==> f.group == g && f.bundles != []
  }

  /** Whatever is queued in active groups, after the request no inactive group holds a frame. */
  ghost predicate LeavesNothingStale(s: Service, command: Command, body: Json, client: string) {
    forall q: PerGroup<seq<Frame>> ::
      Queueable(q, s.capacity) && Quiet(s.(queues := q)) ==> Quiet(Handle(s.(queues := q), command, body, client).0)
  }

  lemma ActiveAfter(s: Service, command: Command, body: Json, client: string, t: DataType)
    requires command == ToStop || command == ToDisconnect
    ensures var after := Handle(s, command, body, client).0.registry;
            Active(after, t) <==>
            t in s.registry.forced || exists c :: StillHeld(s.registry, client, Dropped(s, command, body, client), c, t)
  {
    HoldersAfterRequest(s, command, body, client);
    var r, after := s.registry, Handle(s, command, body, client).0.registry;
    if exists c :: StillHeld(r, client, Dropped(s, command, body, client), c, t) {
      var c :| StillHeld(r, client, Dropped(s, command, body, client), c, t);
      assert c in after.clients && t in after.clients[c];
    }
  }

  /** Stop and disconnect take exactly the dropped types from the client. */
  lemma HoldersAfterRequest(s: Service, command: Command, body: Json, client: string)
    requires command == ToStop || command == ToDisconnect
    ensures var after := Handle(s, command, body, client).0.registry;
            && after.forced == s.registry.forced
            && forall c, t :: c in after.clients && t in after.clients[c]
                              <==> StillHeld(s.registry, client, Dropped(s, command, body, client), c, t)
  {
  }

  /** Stop and disconnect drain only when nobody subscribes to anything any more. The documented drain of
      every group that falls silent fails for some queued frame exactly when the request takes away all
      that keeps some group active while something else stays subscribed. No queue has a capacity of zero. */
  lemma SilencedGroupsFlushed(s: Service, command: Command, body: Json, client: string)
    requires 0 < s.capacity
    ensures var dropped := Dropped(s, command, body, client);
            LeavesNothingStale(s, command, body, client) <==>
            !(SubscriberRemains(s.registry, client, dropped) && exists g :: HangsOn(s.registry, client, dropped, g))
  {
    var r, dropped := s.registry, Dropped(s, command, body, client);
    if command != ToStop && command != ToDisconnect {
      NothingDropped(r, client);
      forall q: PerGroup<seq<Frame>> | Quiet(s.(queues := q))
        ensures Quiet(Handle(s.(queues := q), command, body, client).0)
      {
        OthersLeaveQuiet(s.(queues := q), command, body, client);
      }
    } else if SubscriberRemains(r, client, dropped) && exists g :: HangsOn(r, client, dropped, g) {
      var g :| HangsOn(r, client, dropped, g);
      StaleCase(s, g, command, body, client);
    } else {
      forall q: PerGroup<seq<Frame>> | Quiet(s.(queues := q))
        ensures Quiet(Handle(s.(queues := q), command, body, client).0)
      {
        CleanCase(s.(queues := q), command, body, client);
      }
    }
  }

  lemma NothingDropped(r: Registry, client: string)
    ensures forall g :: !HangsOn(r, client, {}, g)
  {
    forall g | GroupActive(r, g)
      ensures !HangsOn(r, client, {}, g)
    {
      var t :| t in Members(g) && Active(r, t);
      if t !in r.forced {
        var c :| c in r.clients && t in r.clients[c];
        assert StillHeld(r, client, {}, c, t);
      }
    }
  }

  /** No other command silences a group without draining it. */
  lemma OthersLeaveQuiet(s: Service, command: Command, body: Json, client: string)
    requires Quiet(s) && command != ToStop && command != ToDisconnect
    ensures Quiet(Handle(s, command, body, client).0)
  {
    var s' := Handle(s, command, body, client).0;
    match command
    case ToDeactivate =>
      if NamedType(body).Type? {
        forall g | g != GroupOf(NamedType(body).t)
          ensures GroupActive(s'.registry, g) <==> GroupActive(s.registry, g)
        {
          DeactivationIsLocal(s.registry, NamedType(body).t, g);
        }
      }
    case ToActivate =>
      if NamedType(body).Type? {
        forall g | GroupActive(s.registry, g)
          ensures GroupActive(s'.registry, g)
        {
          ActivationWidens(s.registry, NamedType(body).t, g);
        }
      }
    case ToStart => StartWidens(s, body, client);
    case _ =>
  }

  lemma RemainingSubscribers(s: Service, command: Command, body: Json, client: string)
    requires command == ToStop || command == ToDisconnect
    ensures AnySubscriber(Handle(s, command, body, client).0.registry)
            <==> SubscriberRemains(s.registry, client, Dropped(s, command, body, client))
  {
    HoldersAfterRequest(s, command, body, client);
    var r, after, dropped := s.registry, Handle(s, command, body, client).0.registry, Dropped(s, command, body, client);
    if SubscriberRemains(r, client, dropped) {
      var c, t :| StillHeld(r, client, dropped, c, t);
      assert c in after.clients && t in after.clients[c];
    }
    if AnySubscriber(after) {
      var c :| c in after.clients && after.clients[c] != {};
      var t :| t in after.clients[c];
      assert StillHeld(r, client, dropped, c, t);
    }
  }

  lemma QueuesAfter(s: Service, command: Command, body: Json, client: string)
    requires command == ToStop || command == ToDisconnect
    ensures var s' := Handle(s, command, body, client).0;
            && (AnySubscriber(s'.registry) ==> s'.queues == s.queues)
            && (!AnySubscriber(s'.registry) ==> s'.queues == NoFrames() || s' == s)
  {
  }

  lemma CleanCase(s: Service, command: Command, body: Json, client: string)
    requires Quiet(s) && (command == ToStop || command == ToDisconnect)
    requires var dropped := Dropped(s, command, body, client);
             !(SubscriberRemains(s.registry, client, dropped) && exists g :: HangsOn(s.registry, client, dropped, g))
    ensures Quiet(Handle(s, command, body, client).0)
  {
    var s', dropped := Handle(s, command, body, client).0, Dropped(s, command, body, client);
    RemainingSubscribers(s, command, body, client);
    QueuesAfter(s, command, body, client);
    if AnySubscriber(s'.registry) {
      forall g | !GroupActive(s'.registry, g)
        ensures !GroupActive(s.registry, g)
      {
        SilencedHangsOn(s, command, body, client, g);
      }
    } else {
      assert forall g :: NoFrames().At(g) == [];
    }
  }

  lemma SilencedHangsOn(s: Service, command: Command, body: Json, client: string, g: Group)
    requires command == ToStop || command == ToDisconnect
    ensures var after := Handle(s, command, body, client).0.registry;
            HangsOn(s.registry, client, Dropped(s, command, body, client), g) <==>
            GroupActive(s.registry, g) && !GroupActive(after, g)
  {
    forall t
      ensures Active(Handle(s, command, body, client).0.registry, t) <==>
              t in s.registry.forced || exists c :: StillHeld(s.registry, client, Dropped(s, command, body, client), c, t)
    {
      ActiveAfter(s, command, body, client, t);
    }
  }

  /** A frame queued for the group that falls silent outlives the request. */
  lemma StaleCase(s: Service, g: Group, command: Command, body: Json, client: string)
    requires 0 < s.capacity && (command == ToStop || command == ToDisconnect)
    requires SubscriberRemains(s.registry, client, Dropped(s, command, body, client))
    requires HangsOn(s.registry, client, Dropped(s, command, body, client), g)
    ensures !LeavesNothingStale(s, command, body, client)
  {
    var frame := Frame(g, 0, 0, 0, 0, "", [Bundle(Members(g)[0], "", [], "", false, 0, "", 0, "", 0, 0)]);
    var q := Put(NoFrames(), g, [frame]);
    assert forall o :: NoFrames().At(o) == [];
    var t := s.(queues := q);
    assert Queueable(q, s.capacity) && Quiet(t);
    RemainingSubscribers(t, command, body, client);
    SilencedHangsOn(t, command, body, client, g);
    QueuesAfter(t, command, body, client);
    assert !Quiet(Handle(t, command, body, client).0);
  }

  lemma StartWidens(s: Service, body: Json, client: string)
    ensures forall g :: GroupActive(s.registry, g) ==> GroupActive(DoStart(s, body, client).0.registry, g)
  {
    var r' := DoStart(s, body, client).0.registry;
    forall g | GroupActive(s.registry, g)
      ensures GroupActive(r', g)
    {
      var u :| u in Members(g) && Active(s.registry, u);
      if u !in s.registry.forced {
        var c :| c in s.registry.clients && u in s.registry.clients[c];
        assert u in r'.clients[c];
      }
      assert Active(r', u);
    }
  }

  function StartOne(t: DataType): Json { Object(map["data_types" := Array([Str(NameOf(t))])]) }

  lemma LowerNames(t: DataType)
    ensures Lower(NameOf(t)) == NameOf(t)
  {
    var n := NameOf(t);
    assert forall i :: 0 <= i < |n| ==> LowerChar(n[i]) == n[i];
  }

  lemma StartOneExpands(t: DataType)
    ensures Expand(StartOne(t)) == [t]
  {
    var items := [Str(NameOf(t))];
    assert StartOne(t).Contains("data_types") && StartOne(t).fields["data_types"].items == items;
    LowerNames(t);
    NamesNoGroup(t);
    assert items[..|items| - 1] == [];
    assert ExpandItems(items) == [] + ExpandItem(items[0]);
  }

  function TwoClients(a: string, b: string, f: Frame): seq<Event> {
    [ Request(ToConnect, Null, a), Request(ToConnect, Null, b),
      Request(ToStart, StartOne(StereoImage), a), Request(ToStart, StartOne(Imu), b),
      TickGroup(Visual2D, f),
      Request(ToStop, StartOne(StereoImage), a) ]
  }

  /** A history, the same for any three clients, in which the documented flush does not happen: a new
      subscriber is served the frame that was captured for the previous one. */
  lemma OldFrameReachesNewSubscriber(params: map<string, Parameter>, a: string, b: string, c: string, f: Frame)
    requires a != b && c != a && c != b && f.bundles != []
    ensures var s := Replay(Fresh(8, params), TwoClients(a, b, f));
            && !GroupActive(s.registry, Visual2D) && s.queues.At(Visual2D) == [f]
            && Next(Next(s, Request(ToConnect, Null, c)), Request(ToStart, StartOne(StereoImage), c))
               == s.(sessions := s.sessions + {c}, registry := Start(s.registry, c, [StereoImage]))
  {
    var es := TwoClients(a, b, f);
    var s4 := Next(Next(Next(Next(Fresh(8, params), es[0]), es[1]), es[2]), es[3]);
    BothSubscribed(params, a, b, f);
    FirstLeaves(params, s4, a, b, f);
    StartOneExpands(StereoImage);
    ReplaySteps(Fresh(8, params), es);
  }

  lemma BothSubscribed(params: map<string, Parameter>, a: string, b: string, f: Frame)
    requires a != b
    ensures var es := TwoClients(a, b, f);
            var s := Next(Next(Next(Next(Fresh(8, params), es[0]), es[1]), es[2]), es[3]);
            s == Service({a, b}, Registry(map[a := {StereoImage}, b := {Imu}], {}, {StereoImage, Imu}), NoFrames(), params, 8)
  {
    StartOneExpands(StereoImage);
    StartOneExpands(Imu);
    assert TypeSet([StereoImage]) == {StereoImage} && TypeSet([Imu]) == {Imu};
    var es := TwoClients(a, b, f);
    var s2 := Next(Next(Fresh(8, params), es[0]), es[1]);
    assert s2.sessions == {a, b} && s2.registry == Fresh(8, params).registry;
    var s3 := DoStart(s2, StartOne(StereoImage), a).0;
    assert Subs(s2.registry, a) + TypeSet([StereoImage]) == {StereoImage};
    assert s3.registry == Registry(map[a := {StereoImage}], {}, {StereoImage});
    assert Subs(s3.registry, b) + TypeSet([Imu]) == {Imu};
    var s4 := DoStart(s3, StartOne(Imu), b).0;
    assert s4.registry.clients == map[a := {StereoImage}, b := {Imu}];
    assert s4.registry.known == {StereoImage, Imu};
  }

  lemma FirstIsServed(params: map<string, Parameter>, s: Service, a: string, b: string, f: Frame)
    requires a != b && f.bundles != []
    requires s == Service({a, b}, Registry(map[a := {StereoImage}, b := {Imu}], {}, {StereoImage, Imu}), NoFrames(), params, 8)
    ensures Next(s, TickGroup(Visual2D, f)) == s.(queues := Put(NoFrames(), Visual2D, [f]))
  {
    assert a in s.registry.clients && StereoImage in s.registry.clients[a];
    assert GroupActive(s.registry, Visual2D) by {
      assert StereoImage in Members(Visual2D) && Active(s.registry, StereoImage);
    }
    assert NoFrames().At(Visual2D) == [] && [] + [f] == [f];
  }

  lemma OnlyImuLeft(a: string, b: string, known: set<DataType>)
    requires a != b
    ensures var r := Registry(map[a := {}, b := {Imu}], {}, known); AnySubscriber(r) && !GroupActive(r, Visual2D)
  {
    var r := Registry(map[a := {}, b := {Imu}], {}, known);
    assert b in r.clients && r.clients[b] == {Imu} && Imu in r.clients[b];
    assert forall c :: c in r.clients ==> c == a || c == b;
  }

  lemma FirstLeaves(params: map<string, Parameter>, s: Service, a: string, b: string, f: Frame)
    requires a != b && f.bundles != []
    requires s == Service({a, b}, Registry(map[a := {StereoImage}, b := {Imu}], {}, {StereoImage, Imu}), NoFrames(), params, 8)
    ensures var es := TwoClients(a, b, f);
            var s' := Next(Next(s, es[4]), es[5]);
            s'.sessions == s.sessions && !GroupActive(s'.registry, Visual2D) && s'.queues.At(Visual2D) == [f]
  {
    FirstIsServed(params, s, a, b, f);
    var s5 := Next(s, TickGroup(Visual2D, f));
    StartOneExpands(StereoImage);
    assert TypeSet([StereoImage]) == {StereoImage} && {StereoImage} - TypeSet([StereoImage]) == {};
    var r6 := Stop(s5.registry, a, [StereoImage]);
    assert r6 == Registry(map[a := {}, b := {Imu}], {}, {StereoImage, Imu});
    OnlyImuLeft(a, b, {StereoImage, Imu});
    assert Next(s5, Request(ToStop, StartOne(StereoImage), a)) == s5.(registry := r6);
  }

  lemma ReplaySteps(s: Service, es: seq<Event>)
    requires |es| == 6
    ensures Replay(s, es) == Next(Next(Next(Next(Next(Next(s, es[0]), es[1]), es[2]), es[3]), es[4]), es[5])
  {
    ReplayOne(s, es);
    ReplayOne(Next(s, es[0]), es[1..]);
    var s2 := Next(Next(s, es[0]), es[1]);
    ReplayOne(s2, es[2..]);
    ReplayOne(Next(s2, es[2]), es[3..]);
    var s4 := Next(Next(s2, es[2]), es[3]);
    ReplayOne(s4, es[4..]);
    ReplayOne(Next(s4, es[4]), es[5..]);
    assert es[1..][1..] == es[2..] && es[2..][1..] == es[3..] && es[3..][1..] == es[4..]
        && es[4..][1..] == es[5..] && es[5..][1..] == [];
  }

  lemma ReplayOne(s: Service, es: seq<Event>)
    requires es != []
    ensures Replay(s, es) == Replay(Next(s, es[0]), es[1..])
  {
  }
}
