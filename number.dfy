/**
 * The number platform: a cooling setpoint entity for every component whose
 * capabilities carry thermostatCoolingSetpoint.coolingSetpoint, with bounds
 * read from the companion range attribute and a command to set it.
 */
module Numbers {
  import opened Py
  import opened Api
  import opened Entities
  import opened Sensors

  const SetpointCap: string := "thermostatCoolingSetpoint"
  const SetpointAttr: string := "coolingSetpoint"
  const RangeAttr: string := "coolingSetpointRange"
  const SetCommand: string := "setCoolingSetpoint"

  /** The fixed unit and step of every setpoint entity. */
  const NativeUnit: string := Celsius
  const NativeStep: real := 1.0

  /** The bounds used when the document holds no usable range. */
  const DefaultMin: real := 1.0
  const DefaultMax: real := 30.0

  function SetpointEntity(deviceId: string, comp: string): Entity {
    Entity(Setpoint(NativeUnit, NativeStep), comp, SetpointCap, SetpointAttr, "ST " + comp + " setpoint",
           UniqueId(deviceId, comp, SetpointCap, SetpointAttr))
  }

  // ------------------------------------------------------------------ range

  function RangePath(comp: string): seq<string> {
    ["components", comp, SetpointCap, RangeAttr, "value"]
  }

  /** `_get_range`: the component's range value when it is a two-element list,
      else None. The lookup is `data.get("components", {}).get(comp, {}) or {}`,
      then `.get(CAP, {})` and `.get(RANGE_ATTR) or {}` and `.get("value")`:
      an explicit None for the components or for the capability raises. */
  function GetRange(snapshot: Value, comp: string): Result<Option<seq<Value>>> {
    var data := Or(snapshot, EmptyDict);
    var comps :- Get(data, "components", EmptyDict);
    var c :- Get(comps, comp, EmptyDict);
    var caps :- Get(Or(c, EmptyDict), SetpointCap, EmptyDict);
    var payload :- Get(caps, RangeAttr, Null);
    var rng :- Get(Or(payload, EmptyDict), "value", Null);
    Ok(if rng.List? && |rng.items| == 2 then Some(rng.items) else None)
  }

  lemma RangePathSteps(comp: string)
    ensures var path := RangePath(comp);
      path[1..] == [comp, SetpointCap, RangeAttr, "value"] && path[1..][1..] == [SetpointCap, RangeAttr, "value"] &&
      path[1..][1..][1..] == [RangeAttr, "value"] && path[1..][1..][1..][1..] == ["value"] &&
      path[1..][1..][1..][1..][1..] == []
  {
  }

  lemma GetRangeFound(snapshot: Value, comp: string, xs: seq<Value>)
    requires GetRange(snapshot, comp) == Ok(Some(xs))
    ensures Follow(Or(snapshot, EmptyDict), RangePath(comp)) == Some(List(xs)) && |xs| == 2
  {
    var data := Or(snapshot, EmptyDict);
    var path := RangePath(comp);
    RangePathSteps(comp);
    var p1 := path[1..];
    var p2 := p1[1..];
    var p3 := p2[1..];
    var p4 := p3[1..];
    var comps := Get(data, "components", EmptyDict).value;
    var c := Get(comps, comp, EmptyDict).value;
    var caps := Get(Or(c, EmptyDict), SetpointCap, EmptyDict).value;
    var payload := Get(caps, RangeAttr, Null).value;
    assert Get(Or(payload, EmptyDict), "value", Null) == Ok(List(xs));
    assert Find(payload.entries, "value") == Some(List(xs));
    assert Follow(payload, p4) == Some(List(xs)) by {
      assert Follow(payload, p4) == Follow(List(xs), []);
    }
    assert Find(caps.entries, RangeAttr) == Some(payload);
    assert Follow(caps, p3) == Follow(payload, p4);
    assert Find(c.entries, SetpointCap) == Some(caps);
    assert Follow(c, p2) == Follow(caps, p3);
    assert Find(comps.entries, comp) == Some(c);
    assert Follow(comps, p1) == Follow(c, p2);
    assert Find(data.entries, "components") == Some(comps);
    assert Follow(data, path) == Follow(comps, p1);
  }

  lemma GetRangeOfStored(snapshot: Value, comp: string, xs: seq<Value>)
    requires Follow(Or(snapshot, EmptyDict), RangePath(comp)) == Some(List(xs)) && |xs| == 2
    ensures GetRange(snapshot, comp) == Ok(Some(xs))
  {
    var data := Or(snapshot, EmptyDict);
    var path := RangePath(comp);
    RangePathSteps(comp);
    var p1 := path[1..];
    var p2 := p1[1..];
    var p3 := p2[1..];
    var p4 := p3[1..];
    var comps := Find(data.entries, "components").value;
    assert Follow(data, path) == Follow(comps, p1);
    var c := Find(comps.entries, comp).value;
    assert Follow(comps, p1) == Follow(c, p2);
    var caps := Find(c.entries, SetpointCap).value;
    assert Follow(c, p2) == Follow(caps, p3);
    var payload := Find(caps.entries, RangeAttr).value;
    assert Follow(caps, p3) == Follow(payload, p4);
    assert Follow(payload, p4) == Follow(List(xs), []);
    assert Find(payload.entries, "value") == Some(List(xs));
    assert Truthy(c) && Truthy(payload);
    assert Get(data, "components", EmptyDict) == Ok(comps);
    assert Get(comps, comp, EmptyDict) == Ok(c);
    assert Get(Or(c, EmptyDict), SetpointCap, EmptyDict) == Ok(caps);
    assert Get(caps, RangeAttr, Null) == Ok(payload);
    assert Get(Or(payload, EmptyDict), "value", Null) == Ok(List(xs));
  }

  /** The range found is exactly the two-element list stored at
      `components/<comp>/thermostatCoolingSetpoint/coolingSetpointRange/value`. */
  lemma GetRangeMeaning(snapshot: Value, comp: string, xs: seq<Value>)
    ensures GetRange(snapshot, comp) == Ok(Some(xs)) <==>
      Follow(Or(snapshot, EmptyDict), RangePath(comp)) == Some(List(xs)) && |xs| == 2
  {
    if GetRange(snapshot, comp) == Ok(Some(xs)) {
      GetRangeFound(snapshot, comp, xs);
    }
    if Follow(Or(snapshot, EmptyDict), RangePath(comp)) == Some(List(xs)) && |xs| == 2 {
      GetRangeOfStored(snapshot, comp, xs);
    }
  }

  /** `native_min_value`: the first element of the range as a float, else 1.0. */
  function NativeMin(snapshot: Value, e: Entity): (r: Result<real>)
    ensures GetRange(snapshot, e.component) == Ok(None) ==> r == Ok(DefaultMin)
    ensures GetRange(snapshot, e.component).Raised? ==> r.Raised?
    ensures forall xs :: Follow(Or(snapshot, EmptyDict), RangePath(e.component)) == Some(List(xs)) && |xs| == 2 ==>
      r == ToFloat(xs[0])
  {
    forall xs | Follow(Or(snapshot, EmptyDict), RangePath(e.component)) == Some(List(xs)) && |xs| == 2
      ensures GetRange(snapshot, e.component) == Ok(Some(xs))
    {
      GetRangeMeaning(snapshot, e.component, xs);
    }
    var rng :- GetRange(snapshot, e.component);
    match rng
    case None => Ok(DefaultMin)
    case Some(xs) => ToFloat(xs[0])
  }

  /** `native_max_value`: the second element of the range as a float, else 30.0. */
  function NativeMax(snapshot: Value, e: Entity): (r: Result<real>)
    ensures GetRange(snapshot, e.component) == Ok(None) ==> r == Ok(DefaultMax)
    ensures GetRange(snapshot, e.component).Raised? ==> r.Raised?
    ensures forall xs :: Follow(Or(snapshot, EmptyDict), RangePath(e.component)) == Some(List(xs)) && |xs| == 2 ==>
      r == ToFloat(xs[1])
  {
    forall xs | Follow(Or(snapshot, EmptyDict), RangePath(e.component)) == Some(List(xs)) && |xs| == 2
      ensures GetRange(snapshot, e.component) == Ok(Some(xs))
    {
      GetRangeMeaning(snapshot, e.component, xs);
    }
    var rng :- GetRange(snapshot, e.component);
    match rng
    case None => Ok(DefaultMax)
    case Some(xs) => ToFloat(xs[1])
  }

  /** With no usable range, the bounds are 1.0 and 30.0, in order. */
  lemma DefaultBounds(snapshot: Value, e: Entity)
    requires GetRange(snapshot, e.component) == Ok(None)
    ensures NativeMin(snapshot, e) == Ok(DefaultMin) && NativeMax(snapshot, e) == Ok(DefaultMax)
    ensures DefaultMin <= DefaultMax
  {
  }

  /** An explicit None for the components. */
  lemma NullComponentsRead(snapshot: Value, e: Entity)
    requires e.capability == SetpointCap && e.attribute == SetpointAttr
    requires Follow(Or(snapshot, EmptyDict), ["components"]) == Some(Null)
    ensures GetRange(snapshot, e.component) == Raised(AttributeError)
    ensures CurrentAttr(snapshot, e.component, e.capability, e.attribute) == Ok(Null)
  {
    var data := Or(snapshot, EmptyDict);
    var vpath := ValuePath(e.component, e.capability, e.attribute);
    assert ["components"][1..] == [];
    CurrentAttrMeaning(snapshot, e.component, e.capability, e.attribute);
    assert vpath == ["components"] + vpath[1..];
    FollowAppend(data, ["components"], vpath[1..]);
    assert Truthy(snapshot);
    assert Find(data.entries, "components") == Some(Null);
  }

  /** An explicit None for the setpoint capability: `_get_range` raises. */
  lemma NullCapabilityRange(snapshot: Value, comp: string)
    requires Follow(Or(snapshot, EmptyDict), ["components", comp, SetpointCap]) == Some(Null)
    ensures GetRange(snapshot, comp) == Raised(AttributeError)
  {
    var data := Or(snapshot, EmptyDict);
    var cpath := ["components", comp, SetpointCap];
    assert cpath[1..] == [comp, SetpointCap] && cpath[1..][1..] == [SetpointCap] && [SetpointCap][1..] == [];
    var comps := Find(data.entries, "components").value;
    assert Follow(data, cpath) == Follow(comps, cpath[1..]);
    var c := Find(comps.entries, comp).value;
    assert Follow(comps, cpath[1..]) == Follow(c, [SetpointCap]);
    assert Follow(c, [SetpointCap]) == Follow(Find(c.entries, SetpointCap).value, []);
    assert Find(c.entries, SetpointCap) == Some(Null);
  }

  /** An explicit None for the setpoint capability: the value reads None. */
  lemma NullCapabilityValue(snapshot: Value, e: Entity)
    requires e.capability == SetpointCap && e.attribute == SetpointAttr
    requires Follow(Or(snapshot, EmptyDict), ["components", e.component, SetpointCap]) == Some(Null)
    ensures CurrentAttr(snapshot, e.component, e.capability, e.attribute) == Ok(Null)
  {
    var data := Or(snapshot, EmptyDict);
    var vpath := ValuePath(e.component, e.capability, e.attribute);
    var cpath := ["components", e.component, SetpointCap];
    assert vpath == cpath + [SetpointAttr, "value"];
    assert Truthy(snapshot) by {
      assert Follow(EmptyDict, cpath) == None;
    }
    NullPrefix(data, cpath, [SetpointAttr, "value"]);
    CurrentAttrMeaning(snapshot, e.component, e.capability, e.attribute);
  }

  /** The range lookup is stricter than the value lookup: an explicit None for
      the components, or for the setpoint capability, makes the bounds raise
      while the current value simply reads None. */
  lemma RangeStricterThanValue(snapshot: Value, e: Entity)
    requires e.capability == SetpointCap && e.attribute == SetpointAttr
    requires Follow(Or(snapshot, EmptyDict), ["components"]) == Some(Null) ||
             Follow(Or(snapshot, EmptyDict), ["components", e.component, SetpointCap]) == Some(Null)
    ensures GetRange(snapshot, e.component) == Raised(AttributeError)
    ensures NativeMin(snapshot, e).Raised? && NativeMax(snapshot, e).Raised?
    ensures CurrentAttr(snapshot, e.component, e.capability, e.attribute) == Ok(Null)
  {
    if Follow(Or(snapshot, EmptyDict), ["components"]) == Some(Null) {
      NullComponentsRead(snapshot, e);
    } else {
      NullCapabilityRange(snapshot, e.component);
      NullCapabilityValue(snapshot, e);
    }
  }

  // ---------------------------------------------------------------- commands

  /** `async_set_native_value`: setCoolingSetpoint with the value as its one
      argument, always on the setpoint capability. */
  function SetNativeValue(e: Entity, value: real): (c: Command)
    ensures ParseCommandBody(CommandBody(c)) == Some(Command(e.component, SetpointCap, SetCommand, List([Float(value)])))
  {
    var c := Send(e, SetpointCap, SetCommand, List([Float(value)]));
    CommandBodyRoundTrip(c);
    c
  }

  // ----------------------------------------------------------------- setup

  function SetpointComps(deviceId: string, comps: seq<(string, Value)>): (r: Result<seq<Entity>>)
    ensures r.Ok? ==> forall e :: e in r.value ==> e.component in KeysOf(comps)
  {
    if comps == [] then Ok([])
    else
      var has :- CapabilityHasAttribute(comps[0].1, SetpointCap, SetpointAttr);
      Then(if has then [SetpointEntity(deviceId, comps[0].0)] else [], SetpointComps(deviceId, comps[1..]))
  }

  /** The list the number setup builds. */
  function NumberEntities(snapshot: Value, deviceId: string): Result<seq<Entity>> {
    var comps :- Components(snapshot);
    var es :- Items(comps);
    SetpointComps(deviceId, es)
  }

  /** `async_setup_entry` of the number platform. */
  method SetupNumbers(snapshot: Value, deviceId: string) returns (r: Setup)
    ensures r == Register(NumberEntities(snapshot, deviceId))
  {
    var comps := Components(snapshot);
    if comps.Raised? {
      return SetupFailed(comps.exc);
    }
    var items := Items(comps.value);
    if items.Raised? {
      return SetupFailed(items.exc);
    }
    var es := items.value;
    var entities: seq<Entity> := [];
    ThenNothing(SetpointComps(deviceId, es));
    var i := 0;
    while i < |es|
      invariant 0 <= i <= |es|
      invariant NumberEntities(snapshot, deviceId) == Then(entities, SetpointComps(deviceId, es[i..]))
    {
      assert es[i..][1..] == es[i + 1..];
      var (name, caps) := es[i];
      var has := CapabilityHasAttribute(caps, SetpointCap, SetpointAttr);
      if has.Raised? {
        return SetupFailed(has.exc);
      }
      var found := if has.value then [SetpointEntity(deviceId, name)] else [];
      ThenThen(entities, found, SetpointComps(deviceId, es[i + 1..]));
      entities := entities + found;
      i := i + 1;
    }
    assert es[i..] == [] && entities + [] == entities;
    if |entities| > 0 {
      r := Registered(entities);
    } else {
      r := NothingRegistered;
    }
  }

  // ------------------------------------------------------------ properties

  /** The capabilities at `path` hold the setpoint attribute. */
  predicate SetpointReported(v: Value, path: seq<string>) {
    match Follow(v, path)
    case Some(caps) => CapabilityHasAttribute(caps, SetpointCap, SetpointAttr) == Ok(true)
    case None => false
  }

  /** One iteration of the component loop. */
  lemma SetpointCompsStep(deviceId: string, comps: seq<(string, Value)>)
    requires comps != []
    ensures var has := CapabilityHasAttribute(comps[0].1, SetpointCap, SetpointAttr);
      SetpointComps(deviceId, comps) ==
        if has.Raised? then Raised(has.exc)
        else Then(if has.value then [SetpointEntity(deviceId, comps[0].0)] else [], SetpointComps(deviceId, comps[1..]))
  {
  }

  lemma {:induction false} SetpointCompsExactly(deviceId: string, comps: seq<(string, Value)>, e: Entity)
    requires UniqueKeys(comps) && SetpointComps(deviceId, comps).Ok?
    ensures e in SetpointComps(deviceId, comps).value <==>
      e == SetpointEntity(deviceId, e.component) && SetpointReported(Dict(comps), [e.component])
  {
    if comps != [] {
      UniqueKeysTail(comps);
      SetpointCompsStep(deviceId, comps);
      SetpointCompsExactly(deviceId, comps[1..], e);
      FollowStep(comps, [e.component]);
      assert [e.component][1..] == [];
    }
  }

  /** Without exceptions, the setpoint entities are exactly one per component
      whose capabilities hold thermostatCoolingSetpoint.coolingSetpoint. */
  lemma NumberEntitiesExactly(snapshot: Value, deviceId: string, e: Entity)
    requires WellFormed(snapshot) && NumberEntities(snapshot, deviceId).Ok?
    ensures e in NumberEntities(snapshot, deviceId).value <==>
      e == SetpointEntity(deviceId, e.component) &&
      SetpointReported(Or(snapshot, EmptyDict), ["components", e.component])
  {
    var data := Or(snapshot, EmptyDict);
    var path := ["components", e.component];
    if data.Dict? && Find(data.entries, "components").Some? {
      var c := Find(data.entries, "components").value;
      FindWellFormed(data.entries, "components");
      assert path[1..] == [e.component];
      assert Follow(data, path) == Follow(c, path[1..]);
      if c.Dict? && c.entries != [] {
        SetpointCompsExactly(deviceId, c.entries, e);
      } else {
        assert !SetpointReported(c, path[1..]);
      }
    }
  }

  lemma {:induction false} SetpointCompsOnePerComponent(deviceId: string, comps: seq<(string, Value)>)
    requires UniqueKeys(comps) && SetpointComps(deviceId, comps).Ok?
    ensures OnePerComponent(SetpointComps(deviceId, comps).value)
  {
    if comps != [] {
      UniqueKeysTail(comps);
      SetpointCompsStep(deviceId, comps);
      SetpointCompsOnePerComponent(deviceId, comps[1..]);
      var has := CapabilityHasAttribute(comps[0].1, SetpointCap, SetpointAttr).value;
      var first := if has then [SetpointEntity(deviceId, comps[0].0)] else [];
      OnePerComponentAppend(first, SetpointComps(deviceId, comps[1..]).value);
    }
  }

  /** No component gets two setpoint entities: with the membership lemma
      above, the list holds exactly one per qualifying component. */
  lemma NumberEntitiesOnePerComponent(snapshot: Value, deviceId: string)
    requires WellFormed(snapshot) && NumberEntities(snapshot, deviceId).Ok?
    ensures OnePerComponent(NumberEntities(snapshot, deviceId).value)
  {
    var c := Components(snapshot).value;
    if HasComponents(snapshot) {
      FindWellFormed(snapshot.entries, "components");
    }
    assert NumberEntities(snapshot, deviceId) == SetpointComps(deviceId, c.entries);
    SetpointCompsOnePerComponent(deviceId, c.entries);
  }

  /** The setpoint coordinate never also becomes a sensor: the sensor platform
      skips exactly this pair. */
  lemma SetpointIsNotASensor(snapshot: Value, deviceId: string)
    requires WellFormed(snapshot) && SensorEntities(snapshot, deviceId).Ok?
    ensures forall e :: e in SensorEntities(snapshot, deviceId).value ==>
      !(e.capability == SetpointCap && e.attribute == SetpointAttr)
  {
    SensorEntitiesShape(snapshot, deviceId);
    forall e | e in SensorEntities(snapshot, deviceId).value
      ensures !(e.capability == SetpointCap && e.attribute == SetpointAttr)
    {
      SensorEntitiesExactly(snapshot, deviceId, e);
    }
  }
}
