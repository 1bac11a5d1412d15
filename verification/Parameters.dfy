/** Parameters with validation, and their persistence in CameraSetting.json. */
module Parameters {
  import opened Types
  import opened Json

  datatype ParamValue = Integer(i: Int64) | Float(r: real) | Enum(s: string)

  datatype Parameter = Parameter(
    name: string, value: ParamValue, min: ParamValue, max: ParamValue, defaultValue: ParamValue,
    isReadonly: bool, isAvailable: bool, needsReopen: bool, enumOptions: seq<string>)

  datatype SetError = NoError | UnknownParameter | ReadOnly | TypeMismatch | OutOfRange | InvalidEnum

  predicate SameType(a: ParamValue, b: ParamValue) {
    (a.Integer? && b.Integer?) || (a.Float? && b.Float?) || (a.Enum? && b.Enum?)
  }

  /** The value lies within the limits of the parameter; limits of another type do not limit. */
  predicate Allowed(p: Parameter, v: ParamValue) {
    match v
    case Integer(i) => p.min.Integer? && p.max.Integer? ==> p.min.i <= i <= p.max.i
    case Float(r) => p.min.Float? && p.max.Float? ==> p.min.r <= r <= p.max.r
    case Enum(s) => p.enumOptions == [] || s in p.enumOptions
  }

  predicate Accepts(p: Parameter, v: ParamValue) {
    !p.isReadonly && SameType(p.value, v) && Allowed(p, v)
  }

  /** The first check the value fails. */
  function Objection(p: Parameter, v: ParamValue): (err: SetError)
    ensures err == NoError <==> Accepts(p, v)
  {
    if p.isReadonly then ReadOnly
    else if !SameType(p.value, v) then TypeMismatch
    else if Allowed(p, v) then NoError
    else if v.Enum? then InvalidEnum else OutOfRange
  }

  function Assign(params: map<string, Parameter>, name: string, v: ParamValue): map<string, Parameter> {
    if name in params && Accepts(params[name], v) then params[name := params[name].(value := v)] else params
  }

  class ParameterManager {
    var params: map<string, Parameter>

    constructor ()
      ensures params == map[]
    {
      params := map[];
    }

    method RegisterParameter(p: Parameter)
      modifies this
      ensures params == old(params)[p.name := p]
    {
      params := params[p.name := p];
    }

    /** The first failing check decides the error; only a value that passes all of them is stored. */
    method SetValue(name: string, v: ParamValue) returns (err: SetError)
      modifies this
      ensures params == Assign(old(params), name, v)
      ensures err == if name in old(params) then Objection(old(params)[name], v) else UnknownParameter
      ensures err == NoError <==> name in old(params) && Accepts(old(params)[name], v)
      ensures name !in old(params) <==> err == UnknownParameter
      ensures err == ReadOnly <==> name in old(params) && old(params)[name].isReadonly
      ensures err == TypeMismatch <==>
              name in old(params) && !old(params)[name].isReadonly && !SameType(old(params)[name].value, v)
      ensures err == InvalidEnum <==>
              && name in old(params) && !old(params)[name].isReadonly && old(params)[name].value.Enum?
              && v.Enum? && old(params)[name].enumOptions != [] && v.s !in old(params)[name].enumOptions
      ensures err == OutOfRange <==>
              && name in old(params) && !old(params)[name].isReadonly
              && var p := old(params)[name];
              || (p.value.Integer? && v.Integer? && p.min.Integer? && p.max.Integer? && (v.i < p.min.i || v.i > p.max.i))
              || (p.value.Float? && v.Float? && p.min.Float? && p.max.Float? && (v.r < p.min.r || v.r > p.max.r))
      ensures err != NoError ==> params == old(params)
      ensures err == NoError ==> params == old(params)[name := old(params)[name].(value := v)]
    {
      if name !in params {
        return UnknownParameter;
      }
      var p := params[name];
      if p.isReadonly {
        return ReadOnly;
      }
      if !SameType(p.value, v) {
        return TypeMismatch;
      }
      match v {
        case Integer(i) =>
          if p.min.Integer? && p.max.Integer? && !(p.min.i <= i <= p.max.i) { return OutOfRange; }
        case Float(r) =>
          if p.min.Float? && p.max.Float? && !(p.min.r <= r <= p.max.r) { return OutOfRange; }
        case Enum(s) =>
          if p.enumOptions != [] && s !in p.enumOptions { return InvalidEnum; }
      }
      params := params[name := p.(value := v)];
      err := NoError;
    }

    method Get(name: string) returns (out: Option<Parameter>)
      ensures out == if name in params then Some(params[name]) else None
    {
      out := if name in params then Some(params[name]) else None;
    }

    /** Every parameter once, in no particular order. */
    method All() returns (v: seq<Parameter>)
      ensures forall p :: p in v <==> exists n :: n in params && params[n] == p
      ensures |v| == |params|
    {
      v := [];
      var rest := params.Keys;
      while rest != {}
        invariant rest <= params.Keys
        invariant forall p :: p in v <==> exists n :: n in params && n !in rest && params[n] == p
        invariant |v| + |rest| == |params|
      {
        var k :| k in rest;
        rest := rest - {k};
        v := v + [params[k]];
      }
    }
  }

  // ---------------------------------------------------------------------------
  // What every sequence of changes keeps

  datatype Change = Change(name: string, value: ParamValue)

  function AssignAll(params: map<string, Parameter>, changes: seq<Change>): map<string, Parameter> {
    if changes == [] then params
    else
      var last := changes[|changes| - 1];
      Assign(AssignAll(params, changes[..|changes| - 1]), last.name, last.value)
  }

  /** As registered: filed under its name, at its default. */
  predicate Registered(params: map<string, Parameter>) {
    forall n :: n in params ==> params[n].name == n && params[n].value == params[n].defaultValue
  }

  /** Nothing but values has changed, and each value is the default or one the limits allow. */
  predicate Evolved(base: map<string, Parameter>, now: map<string, Parameter>) {
    && now.Keys == base.Keys
    && forall n :: n in base ==>
         && now[n] == base[n].(value := now[n].value)
         && SameType(now[n].value, base[n].value)
         && (now[n].value == base[n].value || Accepts(base[n], now[n].value))
  }

  lemma {:induction false} ChangesEvolve(base: map<string, Parameter>, changes: seq<Change>)
    ensures Evolved(base, AssignAll(base, changes))
  {
    if changes != [] {
      ChangesEvolve(base, changes[..|changes| - 1]);
    }
  }

  /** What is accepted, case by case. */
  lemma AcceptsMeaning(p: Parameter, v: ParamValue)
    ensures Accepts(p, v) <==>
            && !p.isReadonly
            && match v
               case Integer(i) => p.value.Integer? && !(p.min.Integer? && p.max.Integer? && (i < p.min.i || p.max.i < i))
               case Float(r) => p.value.Float? && !(p.min.Float? && p.max.Float? && (r < p.min.r || p.max.r < r))
               case Enum(s) => p.value.Enum? && (p.enumOptions == [] || exists k :: 0 <= k < |p.enumOptions| && p.enumOptions[k] == s)
  {
  }

  // ---------------------------------------------------------------------------
  // Saving and loading

  function ToJson(v: ParamValue): Json {
    match v case Integer(i) => Int(i) case Float(r) => Json.Float(r) case Enum(s) => Str(s)
  }

  function Truncate(r: real): int { if r >= 0.0 then r.Floor else -((-r).Floor) }

  function Clamp(i: int): Int64 {
    if i < -0x8000_0000_0000_0000 then -0x8000_0000_0000_0000
    else if i < 0x8000_0000_0000_0000 then i else 0x7FFF_FFFF_FFFF_FFFF
  }

  /** What the accessor makes of an integer: one that only fits an unsigned 64-bit word is read as signed,
      and one that fits neither was parsed as a floating-point number. */
  function ToInt64(i: int): Int64 {
    if 0x8000_0000_0000_0000 <= i < 0x1_0000_0000_0000_0000 then i - 0x1_0000_0000_0000_0000 else Clamp(i)
  }

  /** The accessor chosen by the type of the current value: None where it throws. */
  function FromJson(current: ParamValue, j: Json): Option<ParamValue> {
    match current
    case Integer(_) => (match j case Int(i) => Some(Integer(ToInt64(i))) case Float(r) => Some(Integer(Clamp(Truncate(r)))) case _ => None)
    case Float(_) => (match j case Int(i) => Some(ParamValue.Float(i as real)) case Float(r) => Some(ParamValue.Float(r)) case _ => None)
    case Enum(_) => (match j case Str(s) => Some(Enum(s)) case _ => None)
  }

  function Saved(params: map<string, Parameter>): map<string, Json> {
    map n | n in params :: ToJson(params[n].value)
  }

  /** The file holds whole numbers as whole numbers, others as they are, and options as text. */
  lemma SavedValues(params: map<string, Parameter>, n: string)
    ensures Saved(params).Keys == params.Keys
    ensures n in params ==>
              match params[n].value
              case Integer(i) => Saved(params)[n] == Int(i)
              case Float(r) => Saved(params)[n] == Json.Float(r)
              case Enum(s) => Saved(params)[n] == Str(s)
  {
  }

  /** The items one after the other; the first value that cannot be read ends the whole loading. */
  function LoadItems(params: map<string, Parameter>, items: seq<(string, Json)>): map<string, Parameter>
    decreases |items|
  {
    if items == [] then params
    else if items[0].0 !in params then LoadItems(params, items[1..])
    else match FromJson(params[items[0].0].value, items[0].1)
      case None => params
      case Some(v) => LoadItems(Assign(params, items[0].0, v), items[1..])
  }

  method LoadCameraSetting(pm: ParameterManager, items: seq<(string, Json)>)
    modifies pm
    ensures pm.params == LoadItems(old(pm.params), items)
  {
    var i := 0;
    while i < |items|
      invariant 0 <= i <= |items|
      invariant LoadItems(old(pm.params), items) == LoadItems(pm.params, items[i..])
    {
      var (name, value) := items[i];
      assert items[i..][1..] == items[i + 1..];
      if name in pm.params {
        var v := FromJson(pm.params[name].value, value);
        if v.None? {
          return;
        }
        var _ := pm.SetValue(name, v.value);
      }
      i := i + 1;
    }
  }

  method SaveCameraSetting(pm: ParameterManager) returns (j: map<string, Json>)
    requires forall n :: n in pm.params ==> pm.params[n].name == n
    ensures j == Saved(pm.params)
  {
    var all := pm.All();
    j := map[];
    var i := 0;
    while i < |all|
      invariant 0 <= i <= |all|
      invariant forall n :: n in j ==> n in pm.params && j[n] == ToJson(pm.params[n].value)
      invariant forall k :: 0 <= k < i ==> all[k].name in j
    {
      assert all[i] in all;
      j := j[all[i].name := ToJson(all[i].value)];
      i := i + 1;
    }
    forall n | n in pm.params
      ensures n in j
    {
      assert pm.params[n] in all;
    }
  }

  /** Exactly the entries of the object, in some order. */
  predicate Lists(items: seq<(string, Json)>, j: map<string, Json>) {
    && (forall k :: 0 <= k < |items| ==> items[k].0 in j && items[k].1 == j[items[k].0])
    && (forall n :: n in j ==> exists k :: 0 <= k < |items| && items[k].0 == n)
    && (forall a, b :: 0 <= a < b < |items| ==> items[a].0 != items[b].0)
  }

  predicate SameKinds(saved: map<string, Parameter>, base: map<string, Parameter>) {
    forall n :: n in saved && n in base ==> SameType(saved[n].value, base[n].value)
  }

  /** What loading makes of one parameter when the file holds `v` for it. */
  function Restored(p: Parameter, v: ParamValue): Parameter { if Accepts(p, v) then p.(value := v) else p }

  lemma JsonRoundTrip(current: ParamValue, v: ParamValue)
    requires SameType(current, v)
    ensures FromJson(current, ToJson(v)) == Some(v)
  {
  }

  /** What each kind of parameter makes of each kind of JSON value: whole numbers within 64 bits as they are,
      others cut towards zero, no text for a number, and nothing but text for an option. */
  lemma AccessorReads(current: ParamValue, j: Json)
    ensures var v := FromJson(current, j);
            && (v.Some? ==> SameType(current, v.value))
            && (current.Integer? ==>
                  && (v.Some? <==> j.Int? || j.Float?)
                  && (j.Int? && -0x8000_0000_0000_0000 <= j.i < 0x8000_0000_0000_0000 ==> v == Some(Integer(j.i)))
                  && (j.Int? && 0x8000_0000_0000_0000 <= j.i < 0x1_0000_0000_0000_0000 ==>
                        v == Some(Integer(j.i - 0x1_0000_0000_0000_0000)))
                  && (j.Float? && 0.0 <= j.r < 9223372036854775808.0 ==> v.value.i as real <= j.r < (v.value.i + 1) as real)
                  && (j.Float? && -9223372036854775808.0 <= j.r <= 0.0 ==> (v.value.i - 1) as real < j.r <= v.value.i as real))
            && (current.Float? ==>
                  && (v.Some? <==> j.Int? || j.Float?)
                  && (j.Int? ==> v == Some(ParamValue.Float(j.i as real))) && (j.Float? ==> v == Some(ParamValue.Float(j.r))))
            && (current.Enum? ==> (v.Some? <==> j.Str?) && (j.Str? ==> v == Some(Enum(j.s))))
  {
  }

  /** An item that cannot be read ends the loading: what follows it has no effect. */
  lemma {:induction false} UnreadableEndsLoading(params: map<string, Parameter>, items: seq<(string, Json)>, k: nat)
    requires k < |items| && items[k].0 in params && FromJson(params[items[k].0].value, items[k].1) == None
    ensures LoadItems(params, items) == LoadItems(params, items[..k])
    decreases k
  {
    if k > 0 {
      var (name, j) := items[0];
      assert items[..k][0] == items[0] && items[..k][1..] == items[1..][..k - 1];
      if name !in params {
        UnreadableEndsLoading(params, items[1..], k - 1);
      } else if FromJson(params[name].value, j).Some? {
        var next := Assign(params, name, FromJson(params[name].value, j).value);
        KindsKept(params[items[k].0].value, next[items[k].0].value, items[k].1);
        UnreadableEndsLoading(next, items[1..], k - 1);
      }
    }
  }

  lemma KindsKept(a: ParamValue, b: ParamValue, j: Json)
    requires SameType(a, b)
    ensures FromJson(a, j) == FromJson(b, j)
  {
  }

  /** Each item is applied on its own, whatever the order. */
  lemma {:induction false} LoadsEach(params: map<string, Parameter>, saved: map<string, Parameter>, items: seq<(string, Json)>, n: string)
    requires SameKinds(saved, params)
    requires forall k :: 0 <= k < |items| ==> items[k].0 in saved && items[k].1 == ToJson(saved[items[k].0].value)
    requires forall a, b :: 0 <= a < b < |items| ==> items[a].0 != items[b].0
    ensures var after := LoadItems(params, items);
            && after.Keys == params.Keys
            && (n in params ==>
                  after[n] == (if exists k :: 0 <= k < |items| && items[k].0 == n
                               then Restored(params[n], saved[n].value) else params[n]))
    decreases |items|
  {
    if items != [] {
      var (name, j) := items[0];
      if name in params {
        JsonRoundTrip(params[name].value, saved[name].value);
        LoadsEach(Assign(params, name, saved[name].value), saved, items[1..], n);
      } else {
        LoadsEach(params, saved, items[1..], n);
      }
      assert forall k :: 1 <= k < |items| ==> items[1..][k - 1] == items[k];
      if n == name {
        assert items[0].0 == n;
      }
    }
  }

  /** Loading under any configuration with the same types: a saved value comes back exactly when the new
      registration accepts it or has it as its default. */
  lemma RestoredValues(saved: map<string, Parameter>, base: map<string, Parameter>, items: seq<(string, Json)>, n: string)
    requires SameKinds(saved, base) && Lists(items, Saved(saved)) && n in saved && n in base
    ensures var after := LoadItems(base, items);
            && n in after
            && (after[n].value == saved[n].value <==> Accepts(base[n], saved[n].value) || base[n].value == saved[n].value)
  {
    LoadsEach(base, saved, items, n);
    assert n in Saved(saved);
  }

  /** Under the same configuration everything comes back, read-only parameters and defaults outside
      their own limits included. */
  lemma PersistenceRoundTrip(base: map<string, Parameter>, changes: seq<Change>, items: seq<(string, Json)>)
    requires Lists(items, Saved(AssignAll(base, changes)))
    ensures LoadItems(base, items) == AssignAll(base, changes)
  {
    var now := AssignAll(base, changes);
    ChangesEvolve(base, changes);
    LoadedKeys(base, now, items);
    var after := LoadItems(base, items);
    forall n | n in base
      ensures after[n] == now[n]
    {
      LoadsEach(base, now, items, n);
      assert n in Saved(now);
    }
  }

  lemma LoadedKeys(base: map<string, Parameter>, now: map<string, Parameter>, items: seq<(string, Json)>)
    requires SameKinds(now, base) && Lists(items, Saved(now))
    ensures LoadItems(base, items).Keys == base.Keys
  {
    LoadsEach(base, now, items, "");
  }

  // ---------------------------------------------------------------------------
  // The parameters of the service

  function IntParameter(name: string, def: Int64, lo: Int64, hi: Int64, reopen: bool): Parameter {
    Parameter(name, Integer(def), Integer(lo), Integer(hi), Integer(def), false, true, reopen, [])
  }

  function EnumParameter(name: string, def: string, options: seq<string>, reopen: bool): Parameter {
    Parameter(name, Enum(def), Integer(0), Integer(0), Enum(def), false, true, reopen, options)
  }

  /** In the order of registration. The frame rate starts at the configured one. */
  function Standard(fps: Int64): seq<Parameter> {
    [ IntParameter("fps", fps, 1, 120, true),
      EnumParameter("resolution", "HD720", ["HD2K", "HD1080", "HD720", "HD1200", "VGA"], true),
      EnumParameter("depth_mode", "NEURAL",
                    ["NONE", "NEURAL_LIGHT", "NEURAL", "NEURAL_PLUS", "PERFORMANCE", "QUALITY", "ULTRA"], true),
      IntParameter("exposure_time", 0, 0, 33333, false),
      IntParameter("gain", 50, 0, 100, false),
      IntParameter("analog_gain", 1000, 1000, 16000, false),
      IntParameter("digital_gain", 1, 1, 256, false),
      EnumParameter("auto_exposure_gain", "On", ["On", "Off"], false),
      IntParameter("exposure_compensation", 50, 0, 100, false),
      IntParameter("denoising", 50, 0, 100, false),
      Parameter("scene_illuminance", Integer(0), Integer(0), Integer(0), Integer(0), true, true, false, []),
      EnumParameter("mem_type", "CPU", ["CPU", "GPU"], false),
      IntParameter("target_fps_2d", 15, 0, 240, false),
      IntParameter("target_fps_3d", 15, 0, 240, false),
      IntParameter("target_fps_sensor", 200, 0, 1000, false) ]
  }

  function RegisterEach(params: map<string, Parameter>, ps: seq<Parameter>): map<string, Parameter> {
    if ps == [] then params
    else RegisterEach(params, ps[..|ps| - 1])[ps[|ps| - 1].name := ps[|ps| - 1]]
  }

  method RegisterParameters(pm: ParameterManager, fps: Int64)
    modifies pm
    ensures pm.params == RegisterEach(old(pm.params), Standard(fps))
  {
    var ps := Standard(fps);
    var i := 0;
    while i < |ps|
      invariant 0 <= i <= |ps| && pm.params == RegisterEach(old(pm.params), ps[..i])
    {
      assert ps[..i + 1][..i] == ps[..i];
      pm.RegisterParameter(ps[i]);
      i := i + 1;
    }
    assert ps[..i] == ps;
  }

  lemma {:induction false} RegisteredEach(params: map<string, Parameter>, ps: seq<Parameter>)
    requires Registered(params) && forall i :: 0 <= i < |ps| ==> ps[i].value == ps[i].defaultValue
    ensures Registered(RegisterEach(params, ps))
  {
    if ps != [] { RegisteredEach(params, ps[..|ps| - 1]); }
  }

  lemma StandardRegistered(fps: Int64)
    ensures Registered(RegisterEach(map[], Standard(fps)))
  {
    RegisteredEach(map[], Standard(fps));
  }

  /** Whatever the file held and whatever was set since, each parameter is at its default or at a value
      its limits allow, and a read-only one is at its default. */
  lemma StaysValid(base: map<string, Parameter>, items: seq<(string, Json)>, changes: seq<Change>, n: string)
    requires Registered(base) && n in base
    ensures var now := AssignAll(LoadItems(base, items), changes);
            && n in now
            && (now[n].value == now[n].defaultValue || (Allowed(now[n], now[n].value) && !now[n].isReadonly))
            && SameType(now[n].value, now[n].defaultValue)
  {
    var loaded := LoadedAsChanges(base, items);
    AssignAllJoin(base, loaded, changes);
    ChangesEvolve(base, loaded + changes);
  }

  /** Whatever file was loaded and whatever was set since: a value that is not its default lies between its
      limits, or among its options. */
  lemma LimitsHold(base: map<string, Parameter>, items: seq<(string, Json)>, changes: seq<Change>, n: string)
    requires Registered(base) && n in base
    ensures var now := AssignAll(LoadItems(base, items), changes);
            && n in now
            && (now[n].value.Integer? <==> base[n].defaultValue.Integer?)
            && (now[n].value.Float? <==> base[n].defaultValue.Float?)
            && (now[n].value != base[n].defaultValue ==>
                  && !base[n].isReadonly
                  && (now[n].value.Integer? && base[n].min.Integer? && base[n].max.Integer? ==>
                        base[n].min.i <= now[n].value.i && now[n].value.i <= base[n].max.i)
                  && (now[n].value.Float? && base[n].min.Float? && base[n].max.Float? ==>
                        base[n].min.r <= now[n].value.r && now[n].value.r <= base[n].max.r)
                  && (now[n].value.Enum? && base[n].enumOptions != [] ==>
                        exists k :: 0 <= k < |base[n].enumOptions| && base[n].enumOptions[k] == now[n].value.s))
  {
    var loaded := LoadedAsChanges(base, items);
    AssignAllJoin(base, loaded, changes);
    ChangesEvolve(base, loaded + changes);
    AcceptsMeaning(base[n], AssignAll(LoadItems(base, items), changes)[n].value);
  }

  lemma {:induction false} Refiled(params: map<string, Parameter>, ps: seq<Parameter>, k: nat)
    requires k < |ps| && forall j :: k < j < |ps| ==> ps[j].name != ps[k].name
    ensures ps[k].name in RegisterEach(params, ps) && RegisterEach(params, ps)[ps[k].name] == ps[k]
  {
    if k < |ps| - 1 { Refiled(params, ps[..|ps| - 1], k); }
  }

  lemma NameLengths(fps: Int64)
    ensures |Standard(fps)| == 15
    ensures forall k :: 0 <= k < 15 ==>
              |Standard(fps)[k].name| == [3, 10, 10, 13, 4, 11, 12, 18, 21, 9, 17, 8, 13, 13, 17][k]
  {
  }

  lemma SameLengthNames(fps: Int64)
    ensures var ps := Standard(fps);
            && |ps| == 15 && ps[1].name != ps[2].name && ps[10].name != ps[14].name
            && ps[3].name != ps[12].name && ps[3].name != ps[13].name && ps[12].name != ps[13].name
  {
    var ps := Standard(fps);
    assert ps[1].name[0] == 'r' && ps[2].name[0] == 'd' && ps[10].name[0] == 's' && ps[14].name[0] == 't';
    assert ps[3].name[0] == 'e' && ps[12].name[0] == 't' && ps[13].name[0] == 't';
    assert ps[12].name[11] == '2' && ps[13].name[11] == '3';
  }

  /** The fifteen names are different. */
  lemma NamesApart(ps: seq<Parameter>)
    requires |ps| == 15
    requires forall k :: 0 <= k < 15 ==> |ps[k].name| == [3, 10, 10, 13, 4, 11, 12, 18, 21, 9, 17, 8, 13, 13, 17][k]
    requires ps[1].name != ps[2].name && ps[10].name != ps[14].name
    requires ps[3].name != ps[12].name && ps[3].name != ps[13].name && ps[12].name != ps[13].name
    ensures forall j, k :: 0 <= j < k < 15 ==> ps[j].name != ps[k].name
  {
  }

  /** Where each parameter stands after registration. */
  lemma StandardFiled(fps: Int64, k: nat)
    requires k < 15
    ensures |Standard(fps)| == 15
    ensures var p := Standard(fps)[k];
            p.name in RegisterEach(map[], Standard(fps)) && RegisterEach(map[], Standard(fps))[p.name] == p
  {
    NameLengths(fps);
    SameLengthNames(fps);
    NamesApart(Standard(fps));
    Refiled(map[], Standard(fps), k);
  }

  /** One life of the service: register, load a file, accept changes, save. The next life starts with
      the same values, whatever the file held and even if the configured frame rate exceeds its maximum. */
  lemma RestartKeepsSettings(fps: Int64, items: seq<(string, Json)>, changes: seq<Change>, again: seq<(string, Json)>)
    requires Lists(again, Saved(AssignAll(LoadItems(RegisterEach(map[], Standard(fps)), items), changes)))
    ensures LoadItems(RegisterEach(map[], Standard(fps)), again)
            == AssignAll(LoadItems(RegisterEach(map[], Standard(fps)), items), changes)
  {
    var base := RegisterEach(map[], Standard(fps));
    var loaded := LoadedAsChanges(base, items);
    AssignAllJoin(base, loaded, changes);
    PersistenceRoundTrip(base, loaded + changes, again);
  }

  lemma {:induction false} AssignAllJoin(params: map<string, Parameter>, a: seq<Change>, b: seq<Change>)
    ensures AssignAll(params, a + b) == AssignAll(AssignAll(params, a), b)
    decreases |b|
  {
    if b == [] {
      assert a + b == a;
    } else {
      AssignAllJoin(params, a, b[..|b| - 1]);
      assert (a + b)[..|a + b| - 1] == a + b[..|b| - 1];
    }
  }

  /** Loading a file, even a broken one, is a sequence of ordinary changes. */
  lemma {:induction false} LoadedAsChanges(params: map<string, Parameter>, items: seq<(string, Json)>) returns (changes: seq<Change>)
    ensures LoadItems(params, items) == AssignAll(params, changes)
    decreases |items|
  {
    changes := [];
    if items != [] {
      if items[0].0 !in params {
        changes := LoadedAsChanges(params, items[1..]);
      } else {
        var v := FromJson(params[items[0].0].value, items[0].1);
        if v.Some? {
          var first := [Change(items[0].0, v.value)];
          var rest := LoadedAsChanges(Assign(params, items[0].0, v.value), items[1..]);
          AssignAllJoin(params, first, rest);
          assert first[..0] == [];
          assert AssignAll(params, first) == Assign(params, items[0].0, v.value);
          changes := first + rest;
        }
      }
    }
  }
}
