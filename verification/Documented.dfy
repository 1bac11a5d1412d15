/** Commands by their documented names and words: what a request means, without the tables of the code. */
module Documented {
  import opened Types
  import opened Text
  import opened Json
  import opened Channels
  import opened Parameters
  import opened Commands

  // ---------------------------------------------------------------------------
  // Data types and groups by name

  /** The documented name of a type. */
  function Word(t: DataType): string {
    match t
    case StereoImage => "stereo_image"
    case DepthMap => "depth_map"
    case PointCloud => "point_cloud"
    case DisparityMap => "disparity_map"
    case ConfidenceMap => "confidence_map"
    case Imu => "imu"
    case Temperature => "temperature"
    case Magnetometer => "magnetometer"
    case Barometer => "barometer"
  }

  /** A word of a request stands for the type: its own name, or either name of its group, in any letter case. */
  predicate Means(x: string, t: DataType) {
    || Spells(x, Word(t))
    || (t in {StereoImage, DepthMap} && (Spells(x, "visual_2d") || Spells(x, "visual_geometric_2d")))
    || (t in {PointCloud, DisparityMap, ConfidenceMap} && (Spells(x, "visual_3d") || Spells(x, "visual_geometric_3d")))
    || (t in {Imu, Temperature, Magnetometer, Barometer} && (Spells(x, "sensor_data") || Spells(x, "sensor_tracking")))
  }

  lemma WordSpelled(x: string, t: DataType)
    ensures Lower(x) == NameOf(t) <==> Spells(x, Word(t))
  {
    assert Word(t) == NameOf(t);
    LowerSpells(x, Word(t));
  }

  lemma GroupSpelled(x: string)
    ensures GroupNamed(Lower(x)) == Some(Visual2D) <==> Spells(x, "visual_2d") || Spells(x, "visual_geometric_2d")
    ensures GroupNamed(Lower(x)) == Some(Visual3D) <==> Spells(x, "visual_3d") || Spells(x, "visual_geometric_3d")
    ensures GroupNamed(Lower(x)) == Some(SensorData) <==> Spells(x, "sensor_data") || Spells(x, "sensor_tracking")
  {
    LowerSpells(x, "visual_2d");
    LowerSpells(x, "visual_geometric_2d");
    LowerSpells(x, "visual_3d");
    LowerSpells(x, "visual_geometric_3d");
    LowerSpells(x, "sensor_data");
    LowerSpells(x, "sensor_tracking");
    GroupNamesApart(Lower(x));
  }

  lemma GroupNamesApart(s: string)
    ensures GroupNamed(s) == Some(Visual2D) <==> s == "visual_2d" || s == "visual_geometric_2d"
    ensures GroupNamed(s) == Some(Visual3D) <==> s == "visual_3d" || s == "visual_geometric_3d"
    ensures GroupNamed(s) == Some(SensorData) <==> s == "sensor_data" || s == "sensor_tracking"
  {
    assert "visual_2d"[7] == '2' && "visual_3d"[7] == '3';
    assert "visual_geometric_2d"[17] == '2' && "visual_geometric_3d"[17] == '3';
  }

  lemma ItemMeans(item: Json, t: DataType)
    ensures Names(item, t) <==> item.Str? && Means(item.s, t)
  {
    if item.Str? {
      WordSpelled(item.s, t);
      GroupSpelled(item.s);
    }
  }

  /** What a start or stop request asks for. A list is read from its first to its last element and the single
      field is then ignored; without a list the single field is one type in exact spelling. */
  ghost predicate AsksFor(body: Json, t: DataType) {
    && body.Object?
    && if "data_types" in body.fields && body.fields["data_types"].Array? then
         var items := body.fields["data_types"].items;
         exists i :: 0 <= i < |items| && items[i].Str? && Means(items[i].s, t)
       else
         "data_type" in body.fields && body.fields["data_type"].Str? && body.fields["data_type"].s == Word(t)
  }

  lemma ListMeans(items: seq<Json>, t: DataType)
    ensures t in ExpandItems(items) <==> exists i :: 0 <= i < |items| && items[i].Str? && Means(items[i].s, t)
  {
    ExpandItemsMeaning(items, t);
    forall i | 0 <= i < |items|
      ensures Names(items[i], t) <==> items[i].Str? && Means(items[i].s, t)
    {
      ItemMeans(items[i], t);
    }
  }

  lemma RequestMeans(body: Json, t: DataType)
    ensures t in Expand(body) <==> AsksFor(body, t)
  {
    if body.Contains("data_types") && body.fields["data_types"].Array? {
      ListMeans(body.fields["data_types"].items, t);
    } else {
      assert Word(t) == NameOf(t);
      NamesNoGroup(t);
    }
  }

  lemma NothingAskedFor(body: Json)
    ensures Expand(body) == [] <==> forall t :: !AsksFor(body, t)
  {
    forall t
      ensures t in Expand(body) <==> AsksFor(body, t)
    {
      RequestMeans(body, t);
    }
    if Expand(body) != [] { assert Expand(body)[0] in Expand(body); }
  }

  // ---------------------------------------------------------------------------
  // Commands by name

  /** The documented command names. */
  lemma CommandNames()
    ensures CommandNamed("connect") == ToConnect && CommandNamed("disconnect") == ToDisconnect
    ensures CommandNamed("start_capture") == ToStart && CommandNamed("stop_capture") == ToStop
    ensures CommandNamed("activate_channel") == ToActivate && CommandNamed("deactivate_channel") == ToDeactivate
    ensures CommandNamed("check_status") == CheckStatus && CommandNamed("list_channels") == ListChannels
    ensures CommandNamed("list_parameters") == ListParameters
    ensures CommandNamed("get_parameter") == GetParameter && CommandNamed("set_parameter") == SetParameter
    ensures CommandNamed("init") == Init && CommandNamed("dispose") == Dispose
  {
  }

  /** start_capture subscribes a connected client to exactly what it asks for on top of what it had, and
      nobody else to anything. */
  lemma StartSubscribesExactly(s: Service, body: Json, client: string, c: string, t: DataType)
    ensures t in Subs(Handle(s, CommandNamed("start_capture"), body, client).0.registry, c)
            <==> t in Subs(s.registry, c) || (c == client && client in s.sessions && AsksFor(body, t))
  {
    assert CommandNamed("start_capture") == ToStart;
    StartAdds(s, body, client, c, t);
    RequestMeans(body, t);
  }

  lemma StartAdds(s: Service, body: Json, client: string, c: string, t: DataType)
    ensures t in Subs(DoStart(s, body, client).0.registry, c)
            <==> t in Subs(s.registry, c) || (c == client && client in s.sessions && t in Expand(body))
  {
  }

  /** stop_capture takes exactly what it asks for from the client, and nothing from anybody else. */
  lemma StopUnsubscribesExactly(s: Service, body: Json, client: string, c: string, t: DataType)
    ensures t in Subs(Handle(s, CommandNamed("stop_capture"), body, client).0.registry, c)
            <==> t in Subs(s.registry, c) && !(c == client && AsksFor(body, t))
  {
    assert CommandNamed("stop_capture") == ToStop;
    StopRemoves(s, body, client, c, t);
    RequestMeans(body, t);
  }

  lemma StopRemoves(s: Service, body: Json, client: string, c: string, t: DataType)
    ensures t in Subs(DoStop(s, body, client).0.registry, c)
            <==> t in Subs(s.registry, c) && !(c == client && t in Expand(body))
  {
  }

  /** The request names the one type, in any letter case. */
  predicate NamesOne(body: Json, t: DataType) {
    body.Object? && "data_type" in body.fields && body.fields["data_type"].Str? && Spells(body.fields["data_type"].s, Word(t))
  }

  lemma NamedTypeMeans(body: Json)
    ensures forall t :: NamedType(body) == Type(t) <==> NamesOne(body, t)
    ensures NamedType(body) == Throws <==> body.Object? && "data_type" in body.fields && !body.fields["data_type"].Str?
  {
    forall t
      ensures NamedType(body) == Type(t) <==> NamesOne(body, t)
    {
      if body.Contains("data_type") && body.fields["data_type"].Str? {
        WordSpelled(body.fields["data_type"].s, t);
        NamesNoGroup(t);
      }
    }
  }

  /** Activation forces exactly the type it names, deactivation releases exactly that. */
  lemma ForcesExactly(s: Service, body: Json, client: string, t: DataType)
    ensures t in Handle(s, CommandNamed("activate_channel"), body, client).0.registry.forced
            <==> t in s.registry.forced || NamesOne(body, t)
    ensures t in Handle(s, CommandNamed("deactivate_channel"), body, client).0.registry.forced
            <==> t in s.registry.forced && !NamesOne(body, t)
  {
    assert CommandNamed("activate_channel") == ToActivate && CommandNamed("deactivate_channel") == ToDeactivate;
    ForceChanges(s, body, t);
    NamedTypeMeans(body);
  }

  lemma ForceChanges(s: Service, body: Json, t: DataType)
    ensures t in DoActivate(s, body).0.registry.forced <==> t in s.registry.forced || NamedType(body) == Type(t)
    ensures t in DoDeactivate(s, body).0.registry.forced <==> t in s.registry.forced && NamedType(body) != Type(t)
  {
  }

  // ---------------------------------------------------------------------------
  // Replies

  predicate Answers(r: Reply, code: Code) { r.Reply? && r.code == code }

  lemma SessionReplies(s: Service, body: Json, client: string)
    ensures Handle(s, CommandNamed("connect"), body, client).1
            == if client in s.sessions then Reply(AlreadyInit, "Already connected", NoDetail) else Reply(Success, "Connected", NoDetail)
    ensures Handle(s, CommandNamed("disconnect"), body, client).1
            == if client in s.sessions then Reply(Success, "Disconnected", NoDetail) else Reply(NotReady, "Not connected", NoDetail)
    ensures Handle(s, CommandNamed("init"), body, client) == (s, Reply(AlreadyInit, "Already initialized", NoDetail))
    ensures Handle(s, CommandNamed("dispose"), body, client) == (s, Reply(Code.Error, "Not permitted via API", NoDetail))
  {
    CommandNames();
  }

  /** The error codes of start and stop, and the types that a success lists. */
  lemma CaptureReplies(s: Service, body: Json, client: string)
    ensures var r := Handle(s, CommandNamed("start_capture"), body, client).1;
            && (client !in s.sessions ==> Answers(r, NotReady))
            && (client in s.sessions ==> Answers(r, if exists t :: AsksFor(body, t) then Success else InvalidParam))
            && (r.code == Success ==> r.detail.TypeList? && forall t :: t in r.detail.types <==> AsksFor(body, t))
    ensures var r := Handle(s, CommandNamed("stop_capture"), body, client).1;
            && Answers(r, if exists t :: AsksFor(body, t) then Success else InvalidParam)
            && (r.code == Success ==> r.detail.TypeList? && forall t :: t in r.detail.types <==> AsksFor(body, t))
  {
    CommandNames();
    NothingAskedFor(body);
    forall t
      ensures t in Expand(body) <==> AsksFor(body, t)
    {
      RequestMeans(body, t);
    }
  }

  /** A type field that is no text throws, an unknown word is refused, a type succeeds. */
  lemma ChannelReplies(s: Service, body: Json, client: string, activate: bool)
    ensures var name := if activate then "activate_channel" else "deactivate_channel";
            var r := Handle(s, CommandNamed(name), body, client).1;
            && (r.Thrown? <==> body.Object? && "data_type" in body.fields && !body.fields["data_type"].Str?)
            && (Answers(r, Success) <==> exists t :: NamesOne(body, t))
            && (!r.Thrown? ==> Answers(r, Success) || Answers(r, InvalidParam))
            && (Answers(r, Success) ==> r.detail.OneChannel? && NamesOne(body, r.detail.t))
  {
    CommandNames();
    NamedTypeMeans(body);
  }

  /** Any name that is not documented is refused. */
  lemma UnknownCommand(s: Service, name: string, body: Json, client: string)
    requires name !in {"connect", "disconnect", "start_capture", "stop_capture", "activate_channel", "deactivate_channel",
                       "check_status", "list_channels", "list_parameters", "get_parameter", "set_parameter", "init", "dispose"}
    ensures var (s', r) := Handle(s, CommandNamed(name), body, client); s' == s && Answers(r, InvalidParam)
  {
  }

  /** list_channels: the nine types in the order of the table, each with its true activity and count. */
  lemma ChannelsListed(s: Service, body: Json, client: string)
    ensures var r := Handle(s, CommandNamed("list_channels"), body, client).1;
            var order := [StereoImage, DepthMap, PointCloud, Imu, DisparityMap, ConfidenceMap, Temperature, Magnetometer, Barometer];
            && Answers(r, Success) && r.detail.ChannelList? && |r.detail.channels| == 9
            && forall i :: 0 <= i < 9 ==>
                 && r.detail.channels[i].t == order[i]
                 && (r.detail.channels[i].activated <==> Active(s.registry, order[i]))
                 && r.detail.channels[i].subscribers == CountOf(s.registry.clients, order[i])
  {
    CommandNames();
    InfoAt(s.registry, ALL_TYPES);
  }

  lemma {:induction false} InfoAt(r: Registry, types: seq<DataType>)
    ensures |InfoOnEach(r, types)| == |types|
    ensures forall i :: 0 <= i < |types| ==>
              var info := InfoOnEach(r, types)[i];
              && info.t == types[i] && (info.activated <==> Active(r, types[i]))
              && info.subscribers == CountOf(r.clients, types[i])
  {
    if types != [] { InfoAt(r, types[..|types| - 1]); }
  }

  /** check_status: the counts, one true entry for each type that ever got a state, and the queue lengths. */
  lemma StatusReported(s: Service, body: Json, client: string)
    ensures var (s', r) := Handle(s, CommandNamed("check_status"), body, client);
            && s' == s && Answers(r, Success) && r.detail.Status?
            && r.detail.sessions == |s.sessions| && r.detail.clients == |s.registry.clients|
            && (forall e :: e in r.detail.states <==>
                  && e.t in s.registry.known && e.subscribers == CountOf(s.registry.clients, e.t)
                  && (e.activated <==> Active(s.registry, e.t)) && (e.forced <==> e.t in s.registry.forced))
            && r.detail.queued == PerGroup(|s.queues.visual2D|, |s.queues.visual3D|, |s.queues.sensorData|)
  {
    assert CommandNamed("check_status") == CheckStatus;
    forall e
      ensures e in States(s.registry) <==>
              && e.t in s.registry.known && e.subscribers == CountOf(s.registry.clients, e.t)
              && (e.activated <==> Active(s.registry, e.t)) && (e.forced <==> e.t in s.registry.forced)
    {
      if e.t in s.registry.known { assert StateOf(s.registry, e.t) in States(s.registry); }
    }
  }

  /** list_parameters: every registered parameter and nothing else. get_parameter: the one that is named. */
  lemma ParametersReported(s: Service, body: Json, client: string)
    ensures var (s', r) := Handle(s, CommandNamed("list_parameters"), body, client);
            && s' == s && Answers(r, Success) && r.detail.ParameterList?
            && forall p :: p in r.detail.parameters <==> exists n :: n in s.params && s.params[n] == p
    ensures var (s', r) := Handle(s, CommandNamed("get_parameter"), body, client);
            && s' == s
            && (r.Thrown? <==> body.Object? && "name" in body.fields && !body.fields["name"].Str?)
            && (Answers(r, Success) <==>
                  body.Object? && "name" in body.fields && body.fields["name"].Str? && body.fields["name"].s in s.params)
            && (!r.Thrown? ==> Answers(r, Success) || Answers(r, InvalidParam))
            && (Answers(r, Success) ==> r.detail == Described(s.params[body.fields["name"].s]))
  {
    assert CommandNamed("list_parameters") == ListParameters && CommandNamed("get_parameter") == GetParameter;
  }

  function SetBody(name: string, value: Json): Json { Object(map["name" := Str(name), "value" := value]) }
  function GetBody(name: string): Json { Object(map["name" := Str(name)]) }

  /** A parameter that has been set is read back; a request that is not answered with success changes
      nothing, and no other parameter is ever touched. */
  lemma SetThenGet(s: Service, name: string, value: Json, client: string, other: string)
    ensures var (s', r) := Handle(s, CommandNamed("set_parameter"), SetBody(name, value), client);
            && (name !in s.params ==> Answers(r, InvalidParam))
            && (name in s.params ==> (r.Thrown? <==> FromJson(s.params[name].value, value) == None))
            && (!r.Thrown? ==> Answers(r, Success) || Answers(r, InvalidParam))
            && (!Answers(r, Success) ==> s' == s)
            && (Answers(r, Success) ==>
                  && name in s.params && r.detail.Assigned? && r.detail.name == name
                  && FromJson(s.params[name].value, value) == Some(r.detail.value)
                  && r.detail.needsReopen == s.params[name].needsReopen
                  && Handle(s', CommandNamed("get_parameter"), GetBody(name), client)
                     == (s', Reply(Success, "Success", Described(s.params[name].(value := r.detail.value)))))
            && s'.params.Keys == s.params.Keys && (other in s.params && other != name ==> s'.params[other] == s.params[other])
  {
    CommandNames();
    var body := SetBody(name, value);
    assert body.Contains("name") && body.Contains("value");
    assert GetBody(name).Contains("name");
  }

  /** Whether a value that can be read is stored: its kind, the limits and the options decide. */
  lemma SetSucceeds(s: Service, name: string, value: Json, client: string)
    requires name in s.params && FromJson(s.params[name].value, value).Some?
    ensures var (p, v) := (s.params[name], FromJson(s.params[name].value, value).value);
            Answers(Handle(s, CommandNamed("set_parameter"), SetBody(name, value), client).1, Success) <==>
            && !p.isReadonly
            && match v
               case Integer(i) => p.value.Integer? && !(p.min.Integer? && p.max.Integer? && (i < p.min.i || p.max.i < i))
               case Float(r) => p.value.Float? && !(p.min.Float? && p.max.Float? && (r < p.min.r || p.max.r < r))
               case Enum(o) => p.value.Enum? && (p.enumOptions == [] || exists k :: 0 <= k < |p.enumOptions| && p.enumOptions[k] == o)
  {
    CommandNames();
    var body := SetBody(name, value);
    assert body.Contains("name") && body.Contains("value");
    AcceptsMeaning(s.params[name], FromJson(s.params[name].value, value).value);
  }

  /** What a refused value is told. */
  lemma RefusalTexts(name: string)
    ensures ErrorText(ReadOnly, name) == "parameter is read-only: " + name
    ensures ErrorText(TypeMismatch, name) == "type mismatch for parameter: " + name
    ensures ErrorText(OutOfRange, name) == "value out of range for parameter: " + name
    ensures ErrorText(InvalidEnum, name) == "invalid enum value for parameter: " + name
  {
  }
}
