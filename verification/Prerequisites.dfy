/** What commands.md asks of a caller, and exactly when the code keeps to it. */
module Prerequisites {
  import opened Types
  import opened Text
  import opened Json
  import opened Channels
  import opened Parameters
  import opened Commands
  import opened StaleFlush

  // ---------------------------------------------------------------------------
  // A session first

  /** The commands for which the documentation names connect as the prerequisite. */
  predicate NeedsSession(command: Command) {
    !command.ToConnect? && !command.Init? && !command.Dispose? && !command.Unknown?
  }

  /** Only two of them ask for a session, so the prerequisite is enforced for those and no other. */
  lemma SessionsChecked(s: Service, command: Command, body: Json, client: string)
    requires client !in s.sessions
    ensures var r := Handle(s, command, body, client).1;
            && (r.Reply? && r.code == NotReady <==> command == ToStart || command == ToDisconnect)
            && ((NeedsSession(command) ==> r.Reply? && r.code == NotReady)
                <==> command in {ToConnect, ToStart, ToDisconnect, Init, Dispose} || command.Unknown?)
  {
  }

  /** What must be so before the request for it to change nothing although its client is not connected. */
  predicate Harmless(s: Service, command: Command, body: Json, client: string) {
    match command
    case ToStop =>
      || Expand(body) == []
      || (TypeSet(Expand(body)) !! Subs(s.registry, client) && (AnySubscriber(s.registry) || s.queues == NoFrames()))
    case ToActivate => ActivationIsOld(s, NamedType(body))
    case ToDeactivate => DeactivationIsOld(s, NamedType(body))
    case SetParameter =>
      (match Requested(s.params, body)
       case None => true
       case Some(Change(name, v)) => Accepts(s.params[name], v) ==> s.params[name].value == v)
    case _ => true
  }

  /** The type is forced already, or there is no type. */
  predicate ActivationIsOld(s: Service, named: OneType) {
    named.Type? ==> named.t in s.registry.forced && named.t in s.registry.known
  }

  /** The type has a state entry without force, and nothing of an inactive group is queued; or there is no type. */
  predicate DeactivationIsOld(s: Service, named: OneType) {
    named.Type? ==>
      && named.t !in s.registry.forced && named.t in s.registry.known
      && (GroupActive(s.registry, GroupOf(named.t)) || s.queues.At(GroupOf(named.t)) == [])
  }

  lemma StopHarmless(s: Service, body: Json, client: string)
    ensures DoStop(s, body, client).0 == s <==> Harmless(s, ToStop, body, client)
  {
    var r, types := s.registry, TypeSet(Expand(body));
    var r' := Stop(r, client, Expand(body));
    if types !! Subs(r, client) {
      assert client in r.clients ==> r.clients[client] - types == r.clients[client];
      assert r'.clients == r.clients;
    } else {
      var t :| t in types && t in Subs(r, client);
      assert t !in Subs(r', client);
    }
  }

  lemma ActivateHarmless(s: Service, body: Json)
    ensures DoActivate(s, body).0 == s <==> ActivationIsOld(s, NamedType(body))
  {
    if NamedType(body).Type? {
      var t := NamedType(body).t;
      assert t in Activate(s.registry, t).forced && t in Activate(s.registry, t).known;
    }
  }

  lemma DeactivateHarmless(s: Service, body: Json)
    ensures DoDeactivate(s, body).0 == s <==> DeactivationIsOld(s, NamedType(body))
  {
    if NamedType(body).Type? {
      var t := NamedType(body).t;
      var r' := Deactivate(s.registry, t);
      assert t !in r'.forced && t in r'.known;
      if t !in s.registry.forced && t in s.registry.known { assert r' == s.registry; }
      PutBack(s.queues, GroupOf(t));
    }
  }

  lemma PutBack(q: PerGroup<seq<Frame>>, g: Group)
    ensures Put(q, g, []) == q <==> q.At(g) == []
  {
  }

  lemma SetHarmless(s: Service, body: Json, client: string)
    ensures DoSetParameter(s, body).0 == s <==> Harmless(s, SetParameter, body, client)
  {
    match Requested(s.params, body)
    case None =>
    case Some(Change(name, v)) =>
      assert DoSetParameter(s, body).0.params == Assign(s.params, name, v);
      assert s.params[name].value == v ==> s.params[name].(value := v) == s.params[name];
  }

  /** For every command but connect itself: the request of a client that is not connected changes nothing
      exactly when it is harmless. Stop, activate, deactivate and set_parameter do not look for a session. */
  lemma PrerequisiteKept(s: Service, command: Command, body: Json, client: string)
    requires client !in s.sessions && command != ToConnect
    ensures Handle(s, command, body, client).0 == s <==> Harmless(s, command, body, client)
  {
    match command
    case ToStop => StopHarmless(s, body, client);
    case ToActivate => ActivateHarmless(s, body);
    case ToDeactivate => DeactivateHarmless(s, body);
    case SetParameter => SetHarmless(s, body, client);
    case _ =>
  }

  function OneTypeBody(x: string): Json { Object(map["data_type" := Str(x)]) }

  lemma TypeIsNamed(t: DataType)
    ensures NamedType(OneTypeBody(NameOf(t))) == Type(t)
  {
    LowerNames(t);
    NamesNoGroup(t);
  }

  /** Failing case: nobody is connected, a stranger activates a type, and the capture loop produces it; another
      stranger ends that and has the frame thrown away that was queued meanwhile. */
  lemma StrangersSwitchChannels(capacity: nat, params: map<string, Parameter>, a: string, b: string, t: DataType, f: Frame)
    requires 0 < capacity && f.bundles != []
    ensures var s := Next(Fresh(capacity, params), Request(ToActivate, OneTypeBody(NameOf(t)), a));
            var s' := Next(s, TickGroup(GroupOf(t), f));
            && s.sessions == {} && Active(s.registry, t)
            && s'.queues.At(GroupOf(t)) == [f]
            && Next(s', Request(ToDeactivate, OneTypeBody(NameOf(t)), b)).queues.At(GroupOf(t)) == []
            && !Active(Next(s', Request(ToDeactivate, OneTypeBody(NameOf(t)), b)).registry, t)
  {
    var g := GroupOf(t);
    var s := Next(Fresh(capacity, params), Request(ToActivate, OneTypeBody(NameOf(t)), a));
    TypeIsNamed(t);
    assert s.registry == Registry(map[], {t}, {t});
    assert GroupActive(s.registry, g) by { InItsGroup(t); assert Active(s.registry, t); }
    var s' := Next(s, TickGroup(g, f));
    assert NoFrames().At(g) == [];
    assert s'.queues.At(g) == [f] && s'.registry == s.registry;
    assert Deactivate(s'.registry, t) == Registry(map[], {}, {t});
  }

  // ---------------------------------------------------------------------------
  // Group names for the channel commands

  function MemberSet(g: Group): set<DataType> { set t | t in Members(g) }

  lemma GroupIsNoType(x: string)
    requires GroupNamed(Lower(x)).Some?
    ensures NamedType(OneTypeBody(x)) == NoType
  {
    if TypeNamed(Lower(x)).Some? { NamesNoGroup(TypeNamed(Lower(x)).value); }
  }

  /** A group name is refused by both channel commands. What the documentation promises of it, forcing or
      releasing all members of the group, is so exactly when that is so already. */
  lemma GroupNamesNotExpanded(s: Service, x: string, g: Group, client: string)
    requires GroupNamed(Lower(x)) == Some(g)
    ensures Handle(s, ToActivate, OneTypeBody(x), client) == (s, Reply(InvalidParam, "invalid data_type", NoDetail))
    ensures Handle(s, ToDeactivate, OneTypeBody(x), client) == (s, Reply(InvalidParam, "invalid data_type", NoDetail))
    ensures Handle(s, ToActivate, OneTypeBody(x), client).0.registry.forced == s.registry.forced + MemberSet(g)
            <==> MemberSet(g) <= s.registry.forced
    ensures Handle(s, ToDeactivate, OneTypeBody(x), client).0.registry.forced == s.registry.forced - MemberSet(g)
            <==> MemberSet(g) !! s.registry.forced
  {
    GroupIsNoType(x);
  }

  /** Failing case: `{"data_type": "visual_2d"}` forces none of the two types it should. */
  lemma Visual2DNotForced(capacity: nat, params: map<string, Parameter>, client: string)
    ensures var s := Handle(Fresh(capacity, params), ToActivate, OneTypeBody("visual_2d"), client).0;
            && GroupNamed(Lower("visual_2d")) == Some(Visual2D)
            && forall t :: t in Members(Visual2D) ==> t !in s.registry.forced
  {
    var x := "visual_2d";
    assert forall i :: 0 <= i < |x| ==> LowerChar(x[i]) == x[i];
    assert Lower(x) == x;
    GroupNamesNotExpanded(Fresh(capacity, params), x, Visual2D, client);
  }

  /** Start and stop expand group names in the list data_types only: the single field data_type must be the
      exact name of one type. */
  lemma SingleFieldIsExact(x: string, t: DataType)
    ensures t in Expand(OneTypeBody(x)) <==> x == NameOf(t)
  {
    NamesNoGroup(t);
  }
}
