/** The two check-then-act sequences of the code taken apart: the capture loop tests a group and pushes later,
    a start command tests the session and subscribes later, and other threads may act in between. */
module SplitSteps {
  import opened Types
  import opened Json
  import opened Channels
  import opened Parameters
  import opened Commands
  import opened StaleFlush

  /** A start command that has passed its session test. */
  datatype Pending = Pending(client: string, types: seq<DataType>)

  /** A frame built for a group that was active when it was tested. */
  datatype Built = Built(g: Group, frame: Frame)

  datatype World = World(s: Service, pushing: Option<Built>, starting: multiset<Pending>)

  datatype Moment =
    | Whole(e: Event)
    | TestGroup(g: Group, frame: Frame)
    | PushFrame
    | TestSession(client: string, body: Json)
    | Subscribe(p: Pending)

  /** Ticks and starts come in two halves; everything else stays whole. */
  predicate Enabled(w: World, m: Moment) {
    match m
    case Whole(e) => !e.TickGroup? && (e.Request? ==> e.command != ToStart)
    case TestGroup(_, _) => w.pushing.None?
    case PushFrame => w.pushing.Some?
    case TestSession(_, _) => true
    case Subscribe(p) => p in w.starting
  }

  function Pushed(s: Service, b: Built): Service {
    if |s.queues.At(b.g)| < s.capacity then s.(queues := Put(s.queues, b.g, s.queues.At(b.g) + [b.frame])) else s
  }

  function After(w: World, m: Moment): World
    requires Enabled(w, m)
  {
    match m
    case Whole(e) => w.(s := Next(w.s, e))
    case TestGroup(g, frame) =>
      w.(pushing := if GroupActive(w.s.registry, g) && frame.bundles != [] then Some(Built(g, frame)) else None)
    case PushFrame => w.(s := Pushed(w.s, w.pushing.value), pushing := None)
    case TestSession(client, body) =>
      if client in w.s.sessions && Expand(body) != [] then w.(starting := w.starting + multiset{Pending(client, Expand(body))})
      else w
    case Subscribe(p) =>
      w.(s := w.s.(registry := Start(w.s.registry, p.client, p.types)), starting := w.starting - multiset{p})
  }

  /** With nothing in between, the two halves of a tick's part are the whole. */
  lemma HalvesMakeTheTick(w: World, g: Group, frame: Frame)
    requires w.pushing.None?
    ensures var w' := After(w, TestGroup(g, frame));
            (if w'.pushing.Some? then After(w', PushFrame) else w') == w.(s := Next(w.s, StaleFlush.TickGroup(g, frame)))
  {
  }

  /** The same for a start: it is refused at its first half or goes through both. */
  lemma HalvesMakeTheStart(w: World, client: string, body: Json)
    ensures var (whole, w') := (w.(s := Next(w.s, Request(ToStart, body, client))), After(w, TestSession(client, body)));
            if client in w.s.sessions && Expand(body) != []
            then var p := Pending(client, Expand(body)); Enabled(w', Subscribe(p)) && After(w', Subscribe(p)) == whole
            else w' == w == whole
  {
    var p := Pending(client, Expand(body));
    assert w.starting + multiset{p} - multiset{p} == w.starting;
    assert (w.starting + multiset{p})[p] == w.starting[p] + 1;
  }

  /** The invariants of whole commands and ticks: no stale frames, and subscriptions belong to sessions. */
  predicate Good(w: World) { Flushed(w.s) && SessionsCover(w.s) }

  /** What has been tested still holds when it is acted on, as far as it matters. */
  predicate Timely(w: World, m: Moment)
    requires Enabled(w, m)
  {
    match m
    case PushFrame =>
      var g := w.pushing.value.g;
      AnySubscriber(w.s.registry) || GroupActive(w.s.registry, g) || |w.s.queues.At(g)| >= w.s.capacity
    case Subscribe(p) => p.client in w.s.sessions
    case _ => true
  }

  lemma PushKeepsExactly(w: World)
    requires Enabled(w, PushFrame) && Good(w)
    ensures Good(After(w, PushFrame)) <==> Timely(w, PushFrame)
  {
    var b, s' := w.pushing.value, After(w, PushFrame).s;
    if |w.s.queues.At(b.g)| < w.s.capacity {
      assert s'.queues.At(b.g) != [];
      assert forall o :: o != b.g ==> s'.queues.At(o) == w.s.queues.At(o);
    }
  }

  lemma StartKeepsActivity(r: Registry, client: string, types: seq<DataType>)
    ensures AnySubscriber(r) ==> AnySubscriber(Start(r, client, types))
    ensures forall g :: GroupActive(r, g) ==> GroupActive(Start(r, client, types), g)
  {
    var r' := Start(r, client, types);
    if AnySubscriber(r) {
      var c :| c in r.clients && r.clients[c] != {};
      var t :| t in r.clients[c];
      assert c in r'.clients && t in r'.clients[c];
    }
    forall g | GroupActive(r, g)
      ensures GroupActive(r', g)
    {
      var u :| u in Members(g) && Active(r, u);
      if u !in r.forced {
        var c :| c in r.clients && u in r.clients[c];
        assert u in r'.clients[c];
      }
      assert Active(r', u);
    }
  }

  lemma SubscribeKeepsExactly(w: World, p: Pending)
    requires Enabled(w, Subscribe(p)) && Good(w)
    ensures Good(After(w, Subscribe(p))) <==> Timely(w, Subscribe(p))
  {
    var s' := After(w, Subscribe(p)).s;
    StartKeepsActivity(w.s.registry, p.client, p.types);
    assert s'.registry.clients.Keys == w.s.registry.clients.Keys + {p.client};
    assert s'.queues == w.s.queues && s'.sessions == w.s.sessions;
  }

  /** One moment keeps the invariants exactly when it is timely. */
  lemma MomentKeepsExactly(w: World, m: Moment)
    requires Enabled(w, m) && Good(w)
    ensures Good(After(w, m)) <==> Timely(w, m)
  {
    match m
    case Whole(e) =>
      if e.Request? { RequestKeeps(w.s, e.command, e.body, e.client); }
    case PushFrame => PushKeepsExactly(w);
    case Subscribe(p) => SubscribeKeepsExactly(w, p);
    case _ =>
  }

  predicate Possible(w: World, ms: seq<Moment>)
    decreases |ms|
  {
    ms != [] ==> Enabled(w, ms[0]) && Possible(After(w, ms[0]), ms[1..])
  }

  predicate AlwaysGood(w: World, ms: seq<Moment>)
    requires Possible(w, ms)
    decreases |ms|
  {
    Good(w) && (ms != [] ==> AlwaysGood(After(w, ms[0]), ms[1..]))
  }

  predicate AlwaysTimely(w: World, ms: seq<Moment>)
    requires Possible(w, ms)
    decreases |ms|
  {
    ms != [] ==> Timely(w, ms[0]) && AlwaysTimely(After(w, ms[0]), ms[1..])
  }

  lemma {:induction false} GoodWhileTimely(w: World, ms: seq<Moment>)
    requires Possible(w, ms) && Good(w)
    ensures AlwaysGood(w, ms) <==> AlwaysTimely(w, ms)
    decreases |ms|
  {
    if ms != [] {
      MomentKeepsExactly(w, ms[0]);
      if Timely(w, ms[0]) { GoodWhileTimely(After(w, ms[0]), ms[1..]); }
    }
  }

  function Begin(capacity: nat, params: map<string, Parameter>): World {
    World(Fresh(capacity, params), None, multiset{})
  }

  /** Over every history of halves: the invariants hold all along exactly when no frame is pushed into a free
      queue after its group and every subscriber are gone, and no client is subscribed after its session
      has ended. */
  lemma InvariantsSurvive(capacity: nat, params: map<string, Parameter>, ms: seq<Moment>)
    requires Possible(Begin(capacity, params), ms)
    ensures AlwaysGood(Begin(capacity, params), ms) <==> AlwaysTimely(Begin(capacity, params), ms)
  {
    GoodWhileTimely(Begin(capacity, params), ms);
  }

  // ---------------------------------------------------------------------------
  // Failing cases

  /** A client is subscribed after its session has ended: its type is produced with nobody connected. */
  lemma LateSubscription(capacity: nat, params: map<string, Parameter>, a: string, t: DataType)
    ensures var w1 := After(Begin(capacity, params), Whole(Request(ToConnect, Null, a)));
            var w2 := After(w1, TestSession(a, StartOne(t)));
            var w3 := After(w2, Whole(Request(ToDisconnect, Null, a)));
            Enabled(w3, Subscribe(Pending(a, [t]))) &&
            var w4 := After(w3, Subscribe(Pending(a, [t])));
            w4.s.sessions == {} && a in w4.s.registry.clients && Active(w4.s.registry, t)
  {
    StartOneExpands(t);
    var w1 := After(Begin(capacity, params), Whole(Request(ToConnect, Null, a)));
    assert w1.s.sessions == {a};
    var p := Pending(a, [t]);
    var w2 := After(w1, TestSession(a, StartOne(t)));
    assert w2.starting == multiset{p};
    var w3 := After(w2, Whole(Request(ToDisconnect, Null, a)));
    var r4 := After(w3, Subscribe(p)).s.registry;
    OneInTypeSet(t);
    assert a in r4.clients && t in r4.clients[a];
  }

  lemma OneInTypeSet(t: DataType)
    ensures TypeSet([t]) == {t}
  {
    var ts := [t];
    assert forall u :: u in ts <==> u == t;
  }

  /** One client that has connected and started one type. */
  function Lone(capacity: nat, params: map<string, Parameter>, a: string, t: DataType): Service {
    Next(Next(Fresh(capacity, params), Request(ToConnect, Null, a)), Request(ToStart, StartOne(t), a))
  }

  lemma LoneSubscriber(capacity: nat, params: map<string, Parameter>, a: string, t: DataType)
    ensures var s := Lone(capacity, params, a, t);
            s == Service({a}, Registry(map[a := {t}], {}, {t}), NoFrames(), params, capacity) && GroupActive(s.registry, GroupOf(t))
  {
    StartOneExpands(t);
    var s1 := Next(Fresh(capacity, params), Request(ToConnect, Null, a));
    assert s1 == Service({a}, Registry(map[], {}, {}), NoFrames(), params, capacity);
    OneInTypeSet(t);
    var none: set<DataType> := {};
    assert Subs(s1.registry, a) == none && none + {t} == {t} && {t} - none == {t};
    assert s1.registry.clients[a := {t}] == map[a := {t}];
    assert Start(s1.registry, a, [t]) == Registry(map[a := {t}], {}, {t});
    var r := Registry(map[a := {t}], {}, {t});
    assert a in r.clients && t in r.clients[a];
    InItsGroup(t);
    assert Active(r, t);
  }

  /** A frame is pushed after the last subscriber has left and the queues have been drained. */
  lemma LatePush(capacity: nat, params: map<string, Parameter>, a: string, t: DataType, f: Frame)
    requires 0 < capacity && f.bundles != []
    ensures var w1 := Begin(capacity, params).(s := Lone(capacity, params, a, t));
            var w2 := After(w1, TestGroup(GroupOf(t), f));
            var w3 := After(w2, Whole(Request(ToDisconnect, Null, a)));
            Enabled(w3, PushFrame) &&
            var w4 := After(w3, PushFrame);
            w4.s.sessions == {} && !AnySubscriber(w4.s.registry) && w4.s.queues.At(GroupOf(t)) == [f]
  {
    LoneSubscriber(capacity, params, a, t);
    var s1 := Lone(capacity, params, a, t);
    var s3 := Next(s1, Request(ToDisconnect, Null, a));
    assert Disconnect(s1.registry, a).clients == map[];
    assert s3.registry.clients == map[] && s3.sessions == {} && s3.queues == NoFrames();
    assert NoFrames().At(GroupOf(t)) == [] && [] + [f] == [f];
  }
}
