/** The service's own parameters by their documented names: what values they can ever have. */
module Settings {
  import opened Types
  import opened Json
  import opened Parameters

  /** The parameters after registration, one file and any changes. */
  function Now(fps: Int64, items: seq<(string, Json)>, changes: seq<Change>): map<string, Parameter> {
    AssignAll(LoadItems(RegisterEach(map[], Standard(fps)), items), changes)
  }

  /** At the default or within the limits, and exactly the numbers within the limits can be set. */
  ghost predicate IntWithin(now: map<string, Parameter>, name: string, def: int, lo: int, hi: int) {
    && name in now && now[name].value.Integer? && now[name].defaultValue.Integer? && now[name].defaultValue.i == def
    && (now[name].value.i == def || lo <= now[name].value.i <= hi)
    && forall i: Int64 :: Takes(now, name, Integer(i)) <==> lo <= i <= hi || now[name].value.i == i
  }

  /** One of the options, and exactly the options can be set. */
  ghost predicate OptionWithin(now: map<string, Parameter>, name: string, options: set<string>) {
    && name in now && now[name].value.Enum? && now[name].value.s in options
    && forall s :: Takes(now, name, Enum(s)) <==> s in options
  }

  /** Setting the value leaves it there. */
  predicate Takes(now: map<string, Parameter>, name: string, v: ParamValue) {
    name in now && Assign(now, name, v)[name].value == v
  }

  /** Nothing but the value of a parameter ever changes. */
  lemma OnlyValuesChange(fps: Int64, items: seq<(string, Json)>, changes: seq<Change>, n: string)
    requires n in RegisterEach(map[], Standard(fps))
    ensures var (base, now) := (RegisterEach(map[], Standard(fps)), Now(fps, items, changes));
            n in now && now[n] == base[n].(value := now[n].value)
  {
    var base := RegisterEach(map[], Standard(fps));
    var loaded := LoadedAsChanges(base, items);
    AssignAllJoin(base, loaded, changes);
    ChangesEvolve(base, loaded + changes);
  }

  lemma IntStays(fps: Int64, items: seq<(string, Json)>, changes: seq<Change>, k: nat, name: string, def: Int64, lo: Int64, hi: Int64)
    requires k < |Standard(fps)| == 15
    requires var p := Standard(fps)[k];
             && p.name == name && p.value == Integer(def) && p.defaultValue == Integer(def)
             && p.min == Integer(lo) && p.max == Integer(hi) && !p.isReadonly
    ensures IntWithin(Now(fps, items, changes), name, def, lo, hi)
  {
    StandardRegistered(fps);
    StandardFiled(fps, k);
    LimitsHold(RegisterEach(map[], Standard(fps)), items, changes, name);
    OnlyValuesChange(fps, items, changes, name);
    var now := Now(fps, items, changes);
    forall i: Int64
      ensures Takes(now, name, Integer(i)) <==> lo <= i <= hi || now[name].value.i == i
    {
      AcceptsMeaning(now[name], Integer(i));
    }
  }

  lemma OptionStays(fps: Int64, items: seq<(string, Json)>, changes: seq<Change>, k: nat, name: string, options: set<string>)
    requires k < |Standard(fps)| == 15
    requires var p := Standard(fps)[k];
             && p.name == name && p.defaultValue.Enum? && p.defaultValue.s in options
             && p.enumOptions != [] && (forall s :: s in p.enumOptions <==> s in options) && !p.isReadonly
    ensures OptionWithin(Now(fps, items, changes), name, options)
  {
    StandardRegistered(fps);
    StandardFiled(fps, k);
    LimitsHold(RegisterEach(map[], Standard(fps)), items, changes, name);
    OnlyValuesChange(fps, items, changes, name);
    var now := Now(fps, items, changes);
    forall s
      ensures Takes(now, name, Enum(s)) <==> s in options
    {
      AcceptsMeaning(now[name], Enum(s));
      assert s in now[name].enumOptions <==> s in options;
    }
  }

  /** A documented parameter: its place in the order of registration, its name, default and limits. */
  datatype Number = Number(at: nat, name: string, def: Int64, lo: Int64, hi: Int64)

  function Numbers(fps: Int64): seq<Number> {
    [ Number(0, "fps", fps, 1, 120),
      Number(3, "exposure_time", 0, 0, 33333),
      Number(4, "gain", 50, 0, 100),
      Number(5, "analog_gain", 1000, 1000, 16000),
      Number(6, "digital_gain", 1, 1, 256),
      Number(8, "exposure_compensation", 50, 0, 100),
      Number(9, "denoising", 50, 0, 100),
      Number(12, "target_fps_2d", 15, 0, 240),
      Number(13, "target_fps_3d", 15, 0, 240),
      Number(14, "target_fps_sensor", 200, 0, 1000) ]
  }

  datatype Choice = Choice(at: nat, name: string, options: set<string>)

  const CHOICES: seq<Choice> :=
    [ Choice(1, "resolution", {"HD2K", "HD1080", "HD720", "HD1200", "VGA"}),
      Choice(2, "depth_mode", {"NONE", "NEURAL_LIGHT", "NEURAL", "NEURAL_PLUS", "PERFORMANCE", "QUALITY", "ULTRA"}),
      Choice(7, "auto_exposure_gain", {"On", "Off"}),
      Choice(11, "mem_type", {"CPU", "GPU"}) ]

  lemma NumbersRegistered(fps: Int64, k: nat)
    requires k < 10
    ensures |Numbers(fps)| == 10 && |Standard(fps)| == 15
    ensures var n := Numbers(fps)[k];
            n.at < 15 &&
            var p := Standard(fps)[n.at];
            && p.name == n.name && p.value == Integer(n.def) && p.defaultValue == Integer(n.def)
            && p.min == Integer(n.lo) && p.max == Integer(n.hi) && !p.isReadonly
  {
  }

  lemma ChoicesRegistered(fps: Int64, k: nat)
    requires k < 4
    ensures |CHOICES| == 4 && |Standard(fps)| == 15
    ensures var c := CHOICES[k];
            c.at < 15 &&
            var p := Standard(fps)[c.at];
            && p.name == c.name && p.defaultValue.Enum? && p.defaultValue.s in c.options
            && p.enumOptions != [] && (forall s :: s in p.enumOptions <==> s in c.options) && !p.isReadonly
  {
  }

  /** Over every life of the service: each numeric parameter is at its default or within its documented
      limits, and exactly the numbers within them can be set. Only the frame rate's default can lie outside. */
  lemma NumbersStayWithin(fps: Int64, items: seq<(string, Json)>, changes: seq<Change>, k: nat)
    requires k < 10
    ensures var n := Numbers(fps)[k];
            IntWithin(Now(fps, items, changes), n.name, n.def, n.lo, n.hi)
  {
    NumbersRegistered(fps, k);
    var n := Numbers(fps)[k];
    IntStays(fps, items, changes, n.at, n.name, n.def, n.lo, n.hi);
  }

  /** The same for the parameters with options. */
  lemma OptionsStayWithin(fps: Int64, items: seq<(string, Json)>, changes: seq<Change>, k: nat)
    requires k < 4
    ensures OptionWithin(Now(fps, items, changes), CHOICES[k].name, CHOICES[k].options)
  {
    ChoicesRegistered(fps, k);
    OptionStays(fps, items, changes, CHOICES[k].at, CHOICES[k].name, CHOICES[k].options);
  }

  /** The first three need the camera to be opened again, the others take effect at once. */
  lemma OnlyThreeReopen(fps: Int64, k: nat)
    requires k < 15
    ensures |Standard(fps)| == 15
    ensures Standard(fps)[k].needsReopen <==> Standard(fps)[k].name in {"fps", "resolution", "depth_mode"}
    ensures Standard(fps)[k].isAvailable && (Standard(fps)[k].isReadonly <==> Standard(fps)[k].name == "scene_illuminance")
  {
    NameLengths(fps);
    SameLengthNames(fps);
    var n := Standard(fps)[k].name;
    assert |n| == [3, 10, 10, 13, 4, 11, 12, 18, 21, 9, 17, 8, 13, 13, 17][k];
  }

  /** The one read-only parameter never changes. */
  lemma IlluminanceStays(fps: Int64, items: seq<(string, Json)>, changes: seq<Change>)
    ensures var now := Now(fps, items, changes);
            "scene_illuminance" in now && now["scene_illuminance"].value == Integer(0)
  {
    NameLengths(fps);
    StandardRegistered(fps);
    StandardFiled(fps, 10);
    LimitsHold(RegisterEach(map[], Standard(fps)), items, changes, "scene_illuminance");
  }
}
