/** Sessions, the commands that change subscriptions, and the flush of stale frames. */
module Commands {
  import opened Types
  import opened Text
  import opened Json
  import opened Channels
  import opened Parameters
  import opened DataPipelineModule

  datatype Code = Success | Error | NotReady | AlreadyInit | InvalidParam

  datatype ChannelInfo = ChannelInfo(t: DataType, activated: bool, subscribers: int)

  /** What a reply carries besides its code and message. */
  datatype Detail =
    | NoDetail
    | TypeList(types: seq<DataType>)
    | OneChannel(t: DataType)
    | ChannelList(channels: seq<ChannelInfo>)
    | Status(sessions: nat, clients: nat, states: set<ChannelState>, queued: PerGroup<nat>)
    | ParameterList(parameters: set<Parameter>)
    | Described(parameter: Parameter)
    | Assigned(name: string, value: ParamValue, needsReopen: bool)

  /** Thrown: a JSON accessor throws. */
  datatype Reply = Reply(code: Code, message: string, detail: Detail) | Thrown

  /** The state the commands share with the capture and publisher threads. */
  datatype Service = Service(
    sessions: set<string>, registry: Registry, queues: PerGroup<seq<Frame>>, params: map<string, Parameter>, capacity: nat)

  function NoFrames(): PerGroup<seq<Frame>> { PerGroup([], [], []) }

  // ---------------------------------------------------------------------------
  // Reading the request body

  function GroupNamed(s: string): Option<Group> {
    if s in {"visual_2d", "visual_geometric_2d"} then Some(Visual2D)
    else if s in {"visual_3d", "visual_geometric_3d"} then Some(Visual3D)
    else if s in {"sensor_data", "sensor_tracking"} then Some(SensorData)
    else None
  }

  /** One element of data_types: a group name stands for its members, in table order. */
  function ExpandItem(item: Json): seq<DataType> {
    if !item.Str? then []
    else
      var ls := Lower(item.s);
      match GroupNamed(ls)
      case Some(g) => Members(g)
      case None => match TypeNamed(ls) case Some(t) => [t] case None => []
  }

  function ExpandItems(items: seq<Json>): seq<DataType> {
    if items == [] then [] else ExpandItems(items[..|items| - 1]) + ExpandItem(items[|items| - 1])
  }

  /** The fall-back field data_type is matched without lower-casing and never expanded. */
  function Expand(body: Json): seq<DataType> {
    if !body.Contains("data_types") || !body.fields["data_types"].Array? then
      if body.Contains("data_type") && body.fields["data_type"].Str? then
        match TypeNamed(body.fields["data_type"].s) case Some(t) => [t] case None => []
      else []
    else ExpandItems(body.fields["data_types"].items)
  }

  /** The item names the type, or the group of the type, in any letter case. */
  predicate Names(item: Json, t: DataType) {
    item.Str? && (Lower(item.s) == NameOf(t) || GroupNamed(Lower(item.s)) == Some(GroupOf(t)))
  }

  lemma NamesNoGroup(t: DataType)
    ensures GroupNamed(NameOf(t)) == None && TypeNamed(NameOf(t)) == Some(t)
  {
    match t case _ =>
  }

  lemma ExpandItemMeaning(item: Json, t: DataType)
    ensures t in ExpandItem(item) <==> Names(item, t)
  {
    if item.Str? {
      NamesNoGroup(t);
      match GroupNamed(Lower(item.s)) {
        case Some(g) =>
          assert t in Members(g) <==> GroupOf(t) == g;
        case None =>
      }
    }
  }

  ghost predicate NamedIn(items: seq<Json>, t: DataType) {
    exists i :: 0 <= i < |items| && Names(items[i], t)
  }

  lemma NamedInStep(items: seq<Json>, item: Json, t: DataType)
    ensures NamedIn(items + [item], t) <==> NamedIn(items, t) || Names(item, t)
  {
    var all := items + [item];
    if NamedIn(items, t) {
      var i :| 0 <= i < |items| && Names(items[i], t);
      assert Names(all[i], t);
    }
    if Names(item, t) { assert Names(all[|items|], t); }
  }

  /** Exactly the types some element names are started or stopped. */
  lemma {:induction false} ExpandItemsMeaning(items: seq<Json>, t: DataType)
    ensures t in ExpandItems(items) <==> NamedIn(items, t)
  {
    if items != [] {
      var init, last := items[..|items| - 1], items[|items| - 1];
      ExpandItemsMeaning(init, t);
      ExpandItemMeaning(last, t);
      NamedInStep(init, last, t);
      assert items == init + [last];
    }
  }

  method ExpandTypes(body: Json) returns (out: seq<DataType>)
    ensures out == Expand(body)
  {
    out := [];
    if !body.Contains("data_types") || !body.fields["data_types"].Array? {
      if body.Contains("data_type") && body.fields["data_type"].Str? {
        var t := TypeNamed(body.fields["data_type"].s);
        if t.Some? { out := [t.value]; }
      }
      return;
    }
    var items := body.fields["data_types"].items;
    var i := 0;
    while i < |items|
      invariant 0 <= i <= |items| && out == ExpandItems(items[..i])
    {
      assert items[..i + 1][..i] == items[..i];
      if items[i].Str? {
        var ls := Lower(items[i].s);
        var g := GroupNamed(ls);
        if g.Some? {
          var members := Members(g.value);
          ghost var before := out;
          var j := 0;
          while j < |members|
            invariant 0 <= j <= |members| && out == before + members[..j]
          {
            out := out + [members[j]];
            j := j + 1;
          }
          assert members[..j] == members;
        } else {
          var t := TypeNamed(ls);
          if t.Some? { out := out + [t.value]; }
        }
      }
      i := i + 1;
    }
    assert items[..i] == items;
  }

  // ---------------------------------------------------------------------------
  // The commands, on values

  function FlushIfDeserted(s: Service): Service {
    if AnySubscriber(s.registry) then s else s.(queues := NoFrames())
  }

  function DoConnect(s: Service, client: string): (Service, Reply) {
    if client in s.sessions then (s, Reply(AlreadyInit, "Already connected", NoDetail))
    else (s.(sessions := s.sessions + {client}), Reply(Success, "Connected", NoDetail))
  }

  function DoDisconnect(s: Service, client: string): (Service, Reply) {
    if client !in s.sessions then (s, Reply(NotReady, "Not connected", NoDetail))
    else
      (FlushIfDeserted(s.(registry := Disconnect(s.registry, client), sessions := s.sessions - {client})),
       Reply(Success, "Disconnected", NoDetail))
  }

  function DoStart(s: Service, body: Json, client: string): (Service, Reply) {
    if client !in s.sessions then (s, Reply(NotReady, "not connected \U{2014} call connect first", NoDetail))
    else if Expand(body) == [] then (s, Reply(InvalidParam, "no valid data_types", NoDetail))
    else (s.(registry := Start(s.registry, client, Expand(body))), Reply(Success, "Capture started", TypeList(Expand(body))))
  }

  /** Unlike start, this does not ask for a session. */
  function DoStop(s: Service, body: Json, client: string): (Service, Reply) {
    if Expand(body) == [] then (s, Reply(InvalidParam, "no valid data_types", NoDetail))
    else (FlushIfDeserted(s.(registry := Stop(s.registry, client, Expand(body)))),
          Reply(Success, "Capture stopped", TypeList(Expand(body))))
  }

  /** The single type named by the field data_type: Thrown when it is not a string. */
  datatype OneType = Type(t: DataType) | NoType | Throws

  function NamedType(body: Json): OneType {
    if !body.Contains("data_type") then NoType
    else if !body.fields["data_type"].Str? then Throws
    else match TypeNamed(Lower(body.fields["data_type"].s)) case Some(t) => Type(t) case None => NoType
  }

  function DoActivate(s: Service, body: Json): (Service, Reply) {
    match NamedType(body)
    case Throws => (s, Thrown)
    case NoType => (s, Reply(InvalidParam, "invalid data_type", NoDetail))
    case Type(t) =>
      (s.(registry := Activate(s.registry, t)),
       Reply(Success, if t in s.registry.forced then "Channel already active" else "Channel activated", OneChannel(t)))
  }

  /** The queue of the type's group is emptied if that group is inactive now. */
  function Deactivated(s: Service, t: DataType): Service {
    var s' := s.(registry := Channels.Deactivate(s.registry, t));
    if GroupActive(s'.registry, GroupOf(t)) then s' else s'.(queues := Put(s.queues, GroupOf(t), []))
  }

  function DoDeactivate(s: Service, body: Json): (Service, Reply) {
    match NamedType(body)
    case Throws => (s, Thrown)
    case NoType => (s, Reply(InvalidParam, "invalid data_type", NoDetail))
    case Type(t) => (Deactivated(s, t), Reply(Success, "Channel deactivated", OneChannel(t)))
  }

  // Queries and parameters. None of them asks for a session.

  function Lengths(q: PerGroup<seq<Frame>>): PerGroup<nat> {
    PerGroup(|q.visual2D|, |q.visual3D|, |q.sensorData|)
  }

  function DoCheckStatus(s: Service): (Service, Reply) {
    (s, Reply(Success, "Status", Status(|s.sessions|, |s.registry.clients|, States(s.registry), Lengths(s.queues))))
  }

  function InfoOn(r: Registry, t: DataType): ChannelInfo { ChannelInfo(t, Active(r, t), CountOf(r.clients, t)) }

  function InfoOnEach(r: Registry, types: seq<DataType>): seq<ChannelInfo> {
    if types == [] then [] else InfoOnEach(r, types[..|types| - 1]) + [InfoOn(r, types[|types| - 1])]
  }

  function DoListChannels(s: Service): (Service, Reply) {
    (s, Reply(Success, "Channels", ChannelList(InfoOnEach(s.registry, ALL_TYPES))))
  }

  function DoListParameters(s: Service): (Service, Reply) {
    (s, Reply(Success, "Parameters", ParameterList(s.params.Values)))
  }

  function DoGetParameter(s: Service, body: Json): (Service, Reply) {
    if !body.Contains("name") then (s, Reply(InvalidParam, "missing 'name'", NoDetail))
    else if !body.fields["name"].Str? then (s, Thrown)
    else
      var name := body.fields["name"].s;
      if name !in s.params then (s, Reply(InvalidParam, "unknown parameter", NoDetail))
      else (s, Reply(Success, "Success", Described(s.params[name])))
  }

  /** The value of a set_parameter request in the type of the parameter: None where the accessor throws. */
  function Requested(params: map<string, Parameter>, body: Json): Option<Change> {
    if !body.Contains("name") || !body.Contains("value") || !body.fields["name"].Str? then None
    else
      var name := body.fields["name"].s;
      if name !in params then None
      else match FromJson(params[name].value, body.fields["value"]) case None => None case Some(v) => Some(Change(name, v))
  }

  function ErrorText(err: SetError, name: string): string {
    match err
    case NoError => ""
    case UnknownParameter => "unknown parameter: " + name
    case ReadOnly => "parameter is read-only: " + name
    case TypeMismatch => "type mismatch for parameter: " + name
    case OutOfRange => "value out of range for parameter: " + name
    case InvalidEnum => "invalid enum value for parameter: " + name
  }

  function DoSetParameter(s: Service, body: Json): (Service, Reply) {
    if !body.Contains("name") || !body.Contains("value") then (s, Reply(InvalidParam, "missing 'name' or 'value'", NoDetail))
    else if !body.fields["name"].Str? then (s, Thrown)
    else if body.fields["name"].s !in s.params then (s, Reply(InvalidParam, "unknown parameter", NoDetail))
    else match Requested(s.params, body)
      case None => (s, Thrown)
      case Some(Change(name, v)) =>
        var p := s.params[name];
        if !Accepts(p, v) then (s, Reply(InvalidParam, ErrorText(Objection(p, v), name), NoDetail))
        else (s.(params := Assign(s.params, name, v)), Reply(Success, "Parameter set", Assigned(name, v, p.needsReopen)))
  }

  // ---------------------------------------------------------------------------
  // Dispatch by name

  datatype Command =
    | ToConnect | ToDisconnect | ToStart | ToStop | ToActivate | ToDeactivate
    | CheckStatus | ListChannels | ListParameters | GetParameter | SetParameter | Init | Dispose
    | Unknown(name: string)

  function CommandText(c: Command): string {
    match c
    case ToConnect => "connect"
    case ToDisconnect => "disconnect"
    case ToStart => "start_capture"
    case ToStop => "stop_capture"
    case ToActivate => "activate_channel"
    case ToDeactivate => "deactivate_channel"
    case CheckStatus => "check_status"
    case ListChannels => "list_channels"
    case ListParameters => "list_parameters"
    case GetParameter => "get_parameter"
    case SetParameter => "set_parameter"
    case Init => "init"
    case Dispose => "dispose"
    case Unknown(name) => name
  }

  function CommandNamed(s: string): (c: Command)
    ensures CommandText(c) == s
  {
    if s == "connect" then ToConnect
    else if s == "disconnect" then ToDisconnect
    else if s == "start_capture" then ToStart
    else if s == "stop_capture" then ToStop
    else if s == "activate_channel" then ToActivate
    else if s == "deactivate_channel" then ToDeactivate
    else if s == "check_status" then CheckStatus
    else if s == "list_channels" then ListChannels
    else if s == "list_parameters" then ListParameters
    else if s == "get_parameter" then GetParameter
    else if s == "set_parameter" then SetParameter
    else if s == "init" then Init
    else if s == "dispose" then Dispose
    else Unknown(s)
  }

  /** Each known command answers to exactly one name, spelled in lower case with underscores. */
  lemma NamesDispatchExactly(name: string, c: Command)
    requires !c.Unknown?
    ensures CommandNamed(name) == c <==> name == CommandText(c)
  {
    match c case _ =>
  }

  /** Commands that leave sessions, subscriptions and queues alone. */
  predicate IsQuery(c: Command) {
    !c.ToConnect? && !c.ToDisconnect? && !c.ToStart? && !c.ToStop? && !c.ToActivate? && !c.ToDeactivate?
  }

  function Handle(s: Service, command: Command, body: Json, client: string): (Service, Reply) {
    match command
    case ToConnect => DoConnect(s, client)
    case ToDisconnect => DoDisconnect(s, client)
    case ToStart => DoStart(s, body, client)
    case ToStop => DoStop(s, body, client)
    case ToActivate => DoActivate(s, body)
    case ToDeactivate => DoDeactivate(s, body)
    case CheckStatus => DoCheckStatus(s)
    case ListChannels => DoListChannels(s)
    case ListParameters => DoListParameters(s)
    case GetParameter => DoGetParameter(s, body)
    case SetParameter => DoSetParameter(s, body)
    case Init => (s, Reply(AlreadyInit, "Already initialized", NoDetail))
    case Dispose => (s, Reply(Error, "Not permitted via API", NoDetail))
    case Unknown(name) => (s, Reply(InvalidParam, "unknown command: " + name, NoDetail))
  }

  // ---------------------------------------------------------------------------
  // The objects

  class SessionManager {
    var sessions: set<string>

    constructor ()
      ensures sessions == {}
    {
      sessions := {};
    }

    method Connect(client: string) returns (isNew: bool)
      modifies this
      ensures sessions == old(sessions) + {client} && (isNew <==> client !in old(sessions))
    {
      isNew := client !in sessions;
      sessions := sessions + {client};
    }

    method Disconnect(client: string) returns (was: bool)
      modifies this
      ensures sessions == old(sessions) - {client} && (was <==> client in old(sessions))
    {
      was := client in sessions;
      sessions := sessions - {client};
    }
  }

  class CommandHandler {
    const sessions: SessionManager
    const channels: ChannelManager
    const parameters: ParameterManager
    const pipeline: DataPipeline

    constructor (sessions: SessionManager, channels: ChannelManager, parameters: ParameterManager, pipeline: DataPipeline)
      ensures this.sessions == sessions && this.channels == channels && this.parameters == parameters && this.pipeline == pipeline
    {
      this.sessions, this.channels, this.parameters, this.pipeline := sessions, channels, parameters, pipeline;
    }

    ghost function Repr(): set<object> {
      {sessions, channels, parameters} + pipeline.Repr()
    }

    ghost predicate Valid()
      reads Repr()
    {
      channels.Valid() && pipeline.Valid()
    }

    ghost function Model(): Service
      reads Repr()
    {
      Service(sessions.sessions, channels.Model(), pipeline.Contents(), parameters.params, pipeline.q2d.capacity)
    }

    method FlushWhenDeserted()
      requires Valid()
      modifies pipeline.Repr()
      ensures Valid() && Model() == FlushIfDeserted(old(Model()))
    {
      var any := channels.HasSubscriber();
      if !any {
        pipeline.Drain();
        pipeline.Drain();    // the publisher's own drain does the same again
      }
    }

    method CmdConnect(client: string) returns (r: Reply)
      requires Valid()
      modifies sessions
      ensures Valid() && (Model(), r) == DoConnect(old(Model()), client)
    {
      if client in sessions.sessions {
        return Reply(AlreadyInit, "Already connected", NoDetail);
      }
      var _ := sessions.Connect(client);
      r := Reply(Success, "Connected", NoDetail);
    }

    method CmdDisconnect(client: string) returns (r: Reply)
      requires Valid()
      modifies Repr()
      ensures Valid() && (Model(), r) == DoDisconnect(old(Model()), client)
    {
      if client !in sessions.sessions {
        return Reply(NotReady, "Not connected", NoDetail);
      }
      var _ := channels.DisconnectClient(client);
      var _ := sessions.Disconnect(client);
      FlushWhenDeserted();
      r := Reply(Success, "Disconnected", NoDetail);
    }

    method CmdStartCapture(body: Json, client: string) returns (r: Reply)
      requires Valid()
      modifies channels
      ensures Valid() && (Model(), r) == DoStart(old(Model()), body, client)
    {
      if client !in sessions.sessions {
        return Reply(NotReady, "not connected \U{2014} call connect first", NoDetail);
      }
      var types := ExpandTypes(body);
      if types == [] {
        return Reply(InvalidParam, "no valid data_types", NoDetail);
      }
      channels.StartCapture(client, types);
      r := Reply(Success, "Capture started", TypeList(types));
    }

    method CmdStopCapture(body: Json, client: string) returns (r: Reply)
      requires Valid()
      modifies Repr()
      ensures Valid() && (Model(), r) == DoStop(old(Model()), body, client)
    {
      var types := ExpandTypes(body);
      if types == [] {
        return Reply(InvalidParam, "no valid data_types", NoDetail);
      }
      channels.StopCapture(client, types);
      FlushWhenDeserted();
      r := Reply(Success, "Capture stopped", TypeList(types));
    }

    method CmdActivateChannel(body: Json) returns (r: Reply)
      requires Valid()
      modifies channels
      ensures Valid() && (Model(), r) == DoActivate(old(Model()), body)
    {
      match NamedType(body) {
        case Throws => r := Thrown;
        case NoType => r := Reply(InvalidParam, "invalid data_type", NoDetail);
        case Type(t) =>
          var changed := channels.ActivateChannel(t);
          r := Reply(Success, if changed then "Channel activated" else "Channel already active", OneChannel(t));
      }
    }

    method CmdDeactivateChannel(body: Json) returns (r: Reply)
      requires Valid()
      modifies channels, pipeline.Repr()
      ensures Valid() && (Model(), r) == DoDeactivate(old(Model()), body)
    {
      match NamedType(body) {
        case Throws => r := Thrown;
        case NoType => r := Reply(InvalidParam, "invalid data_type", NoDetail);
        case Type(t) =>
          Deactivate(t);
          r := Reply(Success, "Channel deactivated", OneChannel(t));
      }
    }

    method Deactivate(t: DataType)
      requires Valid()
      modifies channels, pipeline.Repr()
      ensures Valid() && Model() == Deactivated(old(Model()), t)
    {
      var _ := channels.DeactivateChannel(t);
      var active := channels.IsGroupActive(GroupOf(t));
      if !active {
        pipeline.DrainGroup(GroupOf(t));
      }
    }

    method CmdCheckStatus() returns (r: Reply)
      requires Valid()
      ensures (Model(), r) == DoCheckStatus(Model())
    {
      var total, states := channels.StatusJson();
      var queued := pipeline.Sizes();
      r := Reply(Success, "Status", Status(|sessions.sessions|, total, states, queued));
    }

    method CmdListChannels() returns (r: Reply)
      requires Valid()
      ensures (Model(), r) == DoListChannels(Model())
    {
      var infos := ListEach(ALL_TYPES);
      r := Reply(Success, "Channels", ChannelList(infos));
    }

    method ListEach(types: seq<DataType>) returns (infos: seq<ChannelInfo>)
      requires channels.Valid()
      ensures infos == InfoOnEach(channels.Model(), types)
    {
      infos := [];
      var i := 0;
      while i < |types|
        invariant 0 <= i <= |types| && infos == InfoOnEach(channels.Model(), types[..i])
      {
        assert types[..i + 1][..i] == types[..i];
        var active := channels.IsActive(types[i]);
        var count := channels.SubscriberCount(types[i]);
        infos := infos + [ChannelInfo(types[i], active, count)];
        i := i + 1;
      }
      assert types[..i] == types;
    }

    method CmdListParameters() returns (r: Reply)
      requires Valid()
      ensures (Model(), r) == DoListParameters(Model())
    {
      var all := parameters.All();
      assert (set p | p in all) == parameters.params.Values;
      r := Reply(Success, "Parameters", ParameterList(set p | p in all));
    }

    method CmdGetParameter(body: Json) returns (r: Reply)
      requires Valid()
      ensures (Model(), r) == DoGetParameter(Model(), body)
    {
      if !body.Contains("name") {
        return Reply(InvalidParam, "missing 'name'", NoDetail);
      }
      if !body.fields["name"].Str? {
        return Thrown;
      }
      var p := parameters.Get(body.fields["name"].s);
      r := if p.None? then Reply(InvalidParam, "unknown parameter", NoDetail) else Reply(Success, "Success", Described(p.value));
    }

    method CmdSetParameter(body: Json) returns (r: Reply)
      requires Valid()
      modifies parameters
      ensures Valid() && (Model(), r) == DoSetParameter(old(Model()), body)
    {
      if !body.Contains("name") || !body.Contains("value") {
        return Reply(InvalidParam, "missing 'name' or 'value'", NoDetail);
      }
      if !body.fields["name"].Str? {
        return Thrown;
      }
      var name := body.fields["name"].s;
      var p := parameters.Get(name);
      if p.None? {
        return Reply(InvalidParam, "unknown parameter", NoDetail);
      }
      var v := FromJson(p.value.value, body.fields["value"]);
      if v.None? {
        return Thrown;
      }
      var err := parameters.SetValue(name, v.value);
      if err != NoError {
        return Reply(InvalidParam, ErrorText(err, name), NoDetail);
      }
      r := Reply(Success, "Parameter set", Assigned(name, v.value, p.value.needsReopen));
    }

    /** The commands that change nothing but possibly parameters. */
    method Answer(command: Command, body: Json) returns (r: Reply)
      requires Valid() && IsQuery(command)
      modifies parameters
      ensures Valid()
      ensures forall client :: (Model(), r) == Handle(old(Model()), command, body, client)
    {
      match command {
        case CheckStatus => r := CmdCheckStatus();
        case ListChannels => r := CmdListChannels();
        case ListParameters => r := CmdListParameters();
        case GetParameter => r := CmdGetParameter(body);
        case SetParameter => r := CmdSetParameter(body);
        case Init => r := Reply(AlreadyInit, "Already initialized", NoDetail);
        case Dispose => r := Reply(Error, "Not permitted via API", NoDetail);
        case Unknown(name) => r := Reply(InvalidParam, "unknown command: " + name, NoDetail);
      }
    }

    /** One request changes sessions, subscriptions, queues and parameters exactly as the value-level
        command does. */
    method HandleRequest(command: string, body: Json, client: string) returns (r: Reply)
      requires Valid()
      modifies Repr()
      ensures Valid() && (Model(), r) == Handle(old(Model()), CommandNamed(command), body, client)
    {
      var c := CommandNamed(command);
      if IsQuery(c) {
        r := Answer(c, body);
        return;
      }
      match c {
        case ToConnect => r := CmdConnect(client);
        case ToDisconnect => r := CmdDisconnect(client);
        case ToStart => r := CmdStartCapture(body, client);
        case ToStop => r := CmdStopCapture(body, client);
        case ToActivate => r := CmdActivateChannel(body);
        case ToDeactivate => r := CmdDeactivateChannel(body);
      }
    }
  }
}
