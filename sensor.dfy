/**
 * The sensor platform: the traversal of the status document that lists every
 * attribute carrying a `value`, and the setup that turns those attributes into
 * temperature sensors first and generic numeric sensors after them.
 */
module Sensors {
  import opened Py
  import opened Entities

  const TemperatureCap: string := "temperatureMeasurement"
  const TemperatureAttr: string := "temperature"
  /** The one pair excluded from generic sensors (the setpoint has its own
      number entity). */
  const SkipCap: string := "thermostatCoolingSetpoint"
  const SkipAttr: string := "coolingSetpoint"

  /** A (component, capability, attribute) coordinate in the status document. */
  datatype Triple = Triple(component: string, capability: string, attribute: string)

  /** An attribute payload the traversal reports: a dict with a "value" key. */
  predicate HasValue(payload: Value) {
    payload.Dict? && "value" in KeysOf(payload.entries)
  }

  function PayloadPath(t: Triple): seq<string> {
    ["components", t.component, t.capability, t.attribute]
  }

  /** The reference for the traversal: `t` names a payload, reached through
      dicts, that has a "value". */
  predicate ReportsValue(v: Value, path: seq<string>) {
    match Follow(v, path)
    case Some(p) => HasValue(p)
    case None => false
  }

  // ---------------------------------------------------------------- traversal

  function YieldAttrs(comp: string, cap: string, attrs: seq<(string, Value)>): (ts: seq<Triple>)
    ensures forall t :: t in ts ==> t.component == comp && t.capability == cap && t.attribute in KeysOf(attrs)
  {
    if attrs == [] then []
    else (if HasValue(attrs[0].1) then [Triple(comp, cap, attrs[0].0)] else []) + YieldAttrs(comp, cap, attrs[1..])
  }

  function YieldCaps(comp: string, caps: seq<(string, Value)>): (r: Result<seq<Triple>>)
    ensures r.Ok? ==> forall t :: t in r.value ==> t.component == comp && t.capability in KeysOf(caps)
  {
    if caps == [] then Ok([])
    else
      var attrs :- Items(Or(caps[0].1, EmptyDict));
      var rest :- YieldCaps(comp, caps[1..]);
      Ok(YieldAttrs(comp, caps[0].0, attrs) + rest)
  }

  function YieldComps(comps: seq<(string, Value)>): (r: Result<seq<Triple>>)
    ensures r.Ok? ==> forall t :: t in r.value ==> t.component in KeysOf(comps)
  {
    if comps == [] then Ok([])
    else
      var caps :- Items(Or(comps[0].1, EmptyDict));
      var first :- YieldCaps(comps[0].0, caps);
      var rest :- YieldComps(comps[1..]);
      Ok(first + rest)
  }

  /** `_iter_components`: every coordinate whose payload is a dict with a
      "value", in document order; falsy levels are skipped, a non-empty level
      that is not a dict raises. */
  function IterComponents(data: Value): Result<seq<Triple>> {
    var comps :- Components(data);
    var es :- Items(comps);
    YieldComps(es)
  }

  /** With no data, or no or empty "components", nothing is yielded. */
  lemma IterComponentsOfNothing(data: Value)
    requires !Truthy(data) || (data.Dict? && (Find(data.entries, "components").None? || !Truthy(Find(data.entries, "components").value)))
    ensures IterComponents(data) == Ok([])
  {
  }

  lemma {:induction false} YieldAttrsExactly(comp: string, cap: string, attrs: seq<(string, Value)>, t: Triple)
    requires UniqueKeys(attrs)
    ensures t in YieldAttrs(comp, cap, attrs) <==>
      t.component == comp && t.capability == cap && ReportsValue(Dict(attrs), [t.attribute])
  {
    if attrs != [] {
      UniqueKeysTail(attrs);
      YieldAttrsExactly(comp, cap, attrs[1..], t);
      FollowStep(attrs, [t.attribute]);
      assert [t.attribute][1..] == [];
    }
  }

  /** The coordinates one capability contributes. */
  lemma CapabilityYields(comp: string, cap: string, x: Value, t: Triple)
    requires WellFormed(x) && Items(Or(x, EmptyDict)).Ok?
    ensures t in YieldAttrs(comp, cap, Items(Or(x, EmptyDict)).value) <==>
      t.component == comp && t.capability == cap && ReportsValue(x, [t.attribute])
  {
    if x.Dict? && x.entries != [] {
      YieldAttrsExactly(comp, cap, x.entries, t);
    } else {
      assert Items(Or(x, EmptyDict)).value == [];
      assert !ReportsValue(x, [t.attribute]);
    }
  }

  lemma {:induction false} YieldCapsExactly(comp: string, caps: seq<(string, Value)>, t: Triple)
    requires WellFormed(Dict(caps)) && YieldCaps(comp, caps).Ok?
    ensures t in YieldCaps(comp, caps).value <==>
      t.component == comp && ReportsValue(Dict(caps), [t.capability, t.attribute])
  {
    if caps != [] {
      var path := [t.capability, t.attribute];
      WellFormedSplit(caps);
      YieldCapsExactly(comp, caps[1..], t);
      CapabilityYields(comp, caps[0].0, caps[0].1, t);
      FollowStep(caps, path);
      assert path[1..] == [t.attribute];
    }
  }

  /** The coordinates one component contributes. */
  lemma ComponentYields(comp: string, x: Value, t: Triple)
    requires WellFormed(x) && Items(Or(x, EmptyDict)).Ok?
    requires YieldCaps(comp, Items(Or(x, EmptyDict)).value).Ok?
    ensures t in YieldCaps(comp, Items(Or(x, EmptyDict)).value).value <==>
      t.component == comp && ReportsValue(x, [t.capability, t.attribute])
  {
    if x.Dict? && x.entries != [] {
      YieldCapsExactly(comp, x.entries, t);
    } else {
      assert Items(Or(x, EmptyDict)).value == [];
      assert !ReportsValue(x, [t.capability, t.attribute]);
    }
  }

  lemma {:induction false} YieldCompsExactly(comps: seq<(string, Value)>, t: Triple)
    requires WellFormed(Dict(comps)) && YieldComps(comps).Ok?
    ensures t in YieldComps(comps).value <==> ReportsValue(Dict(comps), [t.component, t.capability, t.attribute])
  {
    if comps != [] {
      var path := [t.component, t.capability, t.attribute];
      WellFormedSplit(comps);
      YieldCompsExactly(comps[1..], t);
      ComponentYields(comps[0].0, comps[0].1, t);
      FollowStep(comps, path);
      assert path[1..] == [t.capability, t.attribute];
    }
  }

  /** The traversal yields a coordinate exactly when the document, read as
      dicts, holds a payload there that is a dict with a "value" key. */
  lemma IterComponentsExactly(data: Value, t: Triple)
    requires WellFormed(data) && IterComponents(data).Ok?
    ensures t in IterComponents(data).value <==> ReportsValue(data, PayloadPath(t))
  {
    var path := PayloadPath(t);
    if data.Dict? && Find(data.entries, "components").Some? {
      var c := Find(data.entries, "components").value;
      FindWellFormed(data.entries, "components");
      assert path[1..] == [t.component, t.capability, t.attribute];
      assert Follow(data, path) == Follow(c, path[1..]);
      if c.Dict? && c.entries != [] {
        YieldCompsExactly(c.entries, t);
      } else {
        assert !ReportsValue(c, path[1..]);
      }
    }
  }

  // ---------------------------------------------------------------- selection

  predicate IsTemperature(t: Triple) {
    t.capability == TemperatureCap && t.attribute == TemperatureAttr
  }

  predicate IsSkipped(t: Triple) {
    t.capability == SkipCap && t.attribute == SkipAttr
  }

  function TemperatureSensor(deviceId: string, t: Triple): Entity {
    Entity(Sensor(Some("temperature"), Some(Celsius)), t.component, t.capability, t.attribute,
           "ST " + t.component + " temperature", UniqueId(deviceId, t.component, t.capability, t.attribute))
  }

  function GenericSensor(deviceId: string, t: Triple): Entity {
    Entity(Sensor(None, None), t.component, t.capability, t.attribute,
           "ST " + t.component + " " + t.capability + "." + t.attribute,
           UniqueId(deviceId, t.component, t.capability, t.attribute))
  }

  predicate IsTemperatureSensor(e: Entity) {
    e.kind == Sensor(Some("temperature"), Some(Celsius))
  }

  predicate IsGenericSensor(e: Entity) {
    e.kind == Sensor(None, None)
  }

  /** The first loop: a temperature sensor per temperature coordinate. */
  function TemperatureSensors(deviceId: string, ts: seq<Triple>): seq<Entity> {
    if ts == [] then []
    else (if IsTemperature(ts[0]) then [TemperatureSensor(deviceId, ts[0])] else []) + TemperatureSensors(deviceId, ts[1..])
  }

  /** `coord.data.get("components", {}).get(comp, {}).get(cap, {}).get(attr, {})
      or {}`, then `.get("value")`: the second loop's own lookup of the value. */
  function PayloadValue(snapshot: Value, t: Triple): Result<Value> {
    var comps :- Get(snapshot, "components", EmptyDict);
    var caps :- Get(comps, t.component, EmptyDict);
    var attrs :- Get(caps, t.capability, EmptyDict);
    var payload :- Get(attrs, t.attribute, EmptyDict);
    Get(Or(payload, EmptyDict), "value", Null)
  }

  /** The second loop: a generic sensor per other coordinate whose value is an
      int or a float (a bool included). */
  function GenericSensors(snapshot: Value, deviceId: string, ts: seq<Triple>): Result<seq<Entity>> {
    if ts == [] then Ok([])
    else if IsSkipped(ts[0]) || IsTemperature(ts[0]) then GenericSensors(snapshot, deviceId, ts[1..])
    else
      var v :- PayloadValue(snapshot, ts[0]);
      Then(if IsNumber(v) then [GenericSensor(deviceId, ts[0])] else [], GenericSensors(snapshot, deviceId, ts[1..]))
  }

  /** The list the sensor setup builds. */
  function SensorEntities(snapshot: Value, deviceId: string): Result<seq<Entity>> {
    var ts :- IterComponents(Or(snapshot, EmptyDict));
    Then(TemperatureSensors(deviceId, ts), GenericSensors(snapshot, deviceId, ts))
  }

  /** The first setup loop, over the yielded coordinates. */
  method AddTemperatureSensors(deviceId: string, ts: seq<Triple>) returns (entities: seq<Entity>)
    ensures entities == TemperatureSensors(deviceId, ts)
  {
    entities := [];
    var i := 0;
    while i < |ts|
      invariant 0 <= i <= |ts|
      invariant TemperatureSensors(deviceId, ts) == entities + TemperatureSensors(deviceId, ts[i..])
    {
      assert ts[i..][1..] == ts[i + 1..];
      if IsTemperature(ts[i]) {
        entities := entities + [TemperatureSensor(deviceId, ts[i])];
      }
      i := i + 1;
    }
    assert ts[i..] == [];
  }

  /** The second setup loop, appending to the list the first one built; an
      exception from the value lookup ends it. */
  method AddGenericSensors(snapshot: Value, deviceId: string, ts: seq<Triple>, built: seq<Entity>)
    returns (r: Result<seq<Entity>>)
    ensures r == Then(built, GenericSensors(snapshot, deviceId, ts))
  {
    var entities := built;
    var i := 0;
    while i < |ts|
      invariant 0 <= i <= |ts|
      invariant Then(built, GenericSensors(snapshot, deviceId, ts)) == Then(entities, GenericSensors(snapshot, deviceId, ts[i..]))
    {
      assert ts[i..][1..] == ts[i + 1..];
      var t := ts[i];
      var rest := GenericSensors(snapshot, deviceId, ts[i + 1..]);
      if !(IsSkipped(t) || IsTemperature(t)) {
        var v := PayloadValue(snapshot, t);
        if v.Raised? {
          assert GenericSensors(snapshot, deviceId, ts[i..]) == Raised(v.exc);
          return Raised(v.exc);
        }
        assert GenericSensors(snapshot, deviceId, ts[i..]) ==
          Then(if IsNumber(v.value) then [GenericSensor(deviceId, t)] else [], rest);
        if IsNumber(v.value) {
          ThenThen(entities, [GenericSensor(deviceId, t)], GenericSensors(snapshot, deviceId, ts[i + 1..]));
          entities := entities + [GenericSensor(deviceId, t)];
        } else if rest.Ok? {
          assert [] + rest.value == rest.value;
        }
      }
      i := i + 1;
    }
    assert ts[i..] == [] && entities + [] == entities;
    r := Ok(entities);
  }

  /** `async_setup_entry` of the sensor platform. */
  method SetupSensors(snapshot: Value, deviceId: string) returns (r: Setup)
    ensures r == Register(SensorEntities(snapshot, deviceId))
  {
    var iter := IterComponents(Or(snapshot, EmptyDict));
    if iter.Raised? {
      return SetupFailed(iter.exc);
    }
    var entities := AddTemperatureSensors(deviceId, iter.value);
    var built := AddGenericSensors(snapshot, deviceId, iter.value, entities);
    match built
    case Raised(e) => r := SetupFailed(e);
    case Ok(es) =>
      if |es| > 0 {
        r := Registered(es);
      } else {
        r := NothingRegistered;
      }
  }

  // ------------------------------------------------------------ properties

  /** A coordinate the second loop turns into a generic sensor. */
  predicate Qualifies(snapshot: Value, t: Triple) {
    !IsSkipped(t) && !IsTemperature(t) &&
    PayloadValue(snapshot, t).Ok? && IsNumber(PayloadValue(snapshot, t).value)
  }

  /** The first loop makes one temperature sensor per temperature coordinate
      and nothing else. */
  lemma {:induction false} TemperatureSensorsExactly(deviceId: string, ts: seq<Triple>, e: Entity)
    ensures e in TemperatureSensors(deviceId, ts) <==>
      exists t :: t in ts && IsTemperature(t) && e == TemperatureSensor(deviceId, t)
  {
    if ts != [] {
      TemperatureSensorsExactly(deviceId, ts[1..], e);
      if exists t :: t in ts && IsTemperature(t) && e == TemperatureSensor(deviceId, t) {
        var t :| t in ts && IsTemperature(t) && e == TemperatureSensor(deviceId, t);
        if t != ts[0] {
          assert t in ts[1..];
        }
      }
    }
  }

  /** The second loop makes one generic sensor per qualifying coordinate and
      nothing else. */
  lemma {:induction false} GenericSensorsExactly(snapshot: Value, deviceId: string, ts: seq<Triple>, e: Entity)
    requires GenericSensors(snapshot, deviceId, ts).Ok?
    ensures e in GenericSensors(snapshot, deviceId, ts).value <==>
      exists t :: t in ts && Qualifies(snapshot, t) && e == GenericSensor(deviceId, t)
  {
    if ts != [] {
      GenericSensorsExactly(snapshot, deviceId, ts[1..], e);
      if exists t :: t in ts && Qualifies(snapshot, t) && e == GenericSensor(deviceId, t) {
        var t :| t in ts && Qualifies(snapshot, t) && e == GenericSensor(deviceId, t);
        if t != ts[0] {
          assert t in ts[1..];
        }
      }
    }
  }

  /** The second loop's lookup of a coordinate the traversal reported finds
      the payload's "value", and agrees with the entity's own reading of it. */
  lemma PayloadValueOfReported(snapshot: Value, t: Triple)
    requires ReportsValue(Or(snapshot, EmptyDict), PayloadPath(t))
    ensures Follow(snapshot, ValuePath(t.component, t.capability, t.attribute)).Some?
    ensures PayloadValue(snapshot, t) == Ok(Follow(snapshot, ValuePath(t.component, t.capability, t.attribute)).value)
    ensures CurrentAttr(snapshot, t.component, t.capability, t.attribute) == PayloadValue(snapshot, t)
  {
    var path := PayloadPath(t);
    var vpath := ValuePath(t.component, t.capability, t.attribute);
    assert Truthy(snapshot);
    var p1, p2, p3 := path[1..], path[2..], path[3..];
    assert p1 == [t.component, t.capability, t.attribute] && p1[1..] == p2;
    assert p2 == [t.capability, t.attribute] && p2[1..] == p3;
    assert p3 == [t.attribute] && p3[1..] == [];
    var x1 := Find(snapshot.entries, "components").value;
    assert Follow(snapshot, path) == Follow(x1, p1);
    var x2 := Find(x1.entries, t.component).value;
    assert Follow(x1, p1) == Follow(x2, p2);
    var x3 := Find(x2.entries, t.capability).value;
    assert Follow(x2, p2) == Follow(x3, p3);
    var p := Find(x3.entries, t.attribute).value;
    assert Follow(x3, p3) == Follow(p, []) == Some(p);
    assert HasValue(p) && Truthy(p);
    assert PayloadValue(snapshot, t) == Ok(Find(p.entries, "value").value);
    assert vpath == path + ["value"];
    FollowAppend(snapshot, path, ["value"]);
    assert Follow(p, ["value"]) == Follow(Find(p.entries, "value").value, []);
    FollowDictsAlong(snapshot, vpath);
    CurrentAttrMeaning(snapshot, t.component, t.capability, t.attribute);
  }

  /** Without exceptions, the sensor list holds exactly a temperature sensor
      for each reported temperature coordinate and a generic sensor for each
      other reported coordinate whose value is a number, the cooling setpoint
      excepted. */
  lemma SensorEntitiesExactly(snapshot: Value, deviceId: string, e: Entity)
    requires WellFormed(snapshot) && SensorEntities(snapshot, deviceId).Ok?
    ensures e in SensorEntities(snapshot, deviceId).value <==>
      exists t :: ReportsValue(Or(snapshot, EmptyDict), PayloadPath(t)) &&
        ((IsTemperature(t) && e == TemperatureSensor(deviceId, t)) ||
         (Qualifies(snapshot, t) && e == GenericSensor(deviceId, t)))
  {
    var data := Or(snapshot, EmptyDict);
    assert WellFormed(data);
    var ts := IterComponents(data).value;
    forall t ensures t in ts <==> ReportsValue(data, PayloadPath(t)) {
      IterComponentsExactly(data, t);
    }
    TemperatureSensorsExactly(deviceId, ts, e);
    GenericSensorsExactly(snapshot, deviceId, ts, e);
  }

  /** A generic sensor reads, at setup time, an int or a float (bools
      included); no coordinate gets both kinds of sensor; and every temperature
      sensor comes before every generic one. */
  lemma SensorEntitiesShape(snapshot: Value, deviceId: string)
    requires WellFormed(snapshot) && SensorEntities(snapshot, deviceId).Ok?
    ensures var es := SensorEntities(snapshot, deviceId).value;
      (forall e :: e in es ==> e.uniqueId == UniqueId(deviceId, e.component, e.capability, e.attribute)) &&
      (forall e :: e in es && IsGenericSensor(e) ==>
         CurrentAttr(snapshot, e.component, e.capability, e.attribute).Ok? &&
         IsNumber(CurrentAttr(snapshot, e.component, e.capability, e.attribute).value)) &&
      (forall e1, e2 :: e1 in es && e2 in es && IsTemperatureSensor(e1) && IsGenericSensor(e2) ==>
         (e1.component, e1.capability, e1.attribute) != (e2.component, e2.capability, e2.attribute)) &&
      (forall i, j :: 0 <= i < j < |es| ==> !(IsGenericSensor(es[i]) && IsTemperatureSensor(es[j])))
  {
    var es := SensorEntities(snapshot, deviceId).value;
    var ts := IterComponents(Or(snapshot, EmptyDict)).value;
    var temps := TemperatureSensors(deviceId, ts);
    var generics := GenericSensors(snapshot, deviceId, ts).value;
    assert es == temps + generics;
    forall e | e in es
      ensures e.uniqueId == UniqueId(deviceId, e.component, e.capability, e.attribute)
      ensures IsTemperatureSensor(e) ==> e in temps && e.capability == TemperatureCap && e.attribute == TemperatureAttr
      ensures IsGenericSensor(e) ==> e in generics && !(e.capability == TemperatureCap && e.attribute == TemperatureAttr)
      ensures IsGenericSensor(e) ==>
         CurrentAttr(snapshot, e.component, e.capability, e.attribute).Ok? &&
         IsNumber(CurrentAttr(snapshot, e.component, e.capability, e.attribute).value)
    {
      SensorEntitiesExactly(snapshot, deviceId, e);
      TemperatureSensorsExactly(deviceId, ts, e);
      GenericSensorsExactly(snapshot, deviceId, ts, e);
      var t :| ReportsValue(Or(snapshot, EmptyDict), PayloadPath(t)) &&
        ((IsTemperature(t) && e == TemperatureSensor(deviceId, t)) ||
         (Qualifies(snapshot, t) && e == GenericSensor(deviceId, t)));
      PayloadValueOfReported(snapshot, t);
    }
    forall i | 0 <= i < |es|
      ensures i < |temps| ==> IsTemperatureSensor(es[i])
      ensures i >= |temps| ==> IsGenericSensor(es[i])
    {
      if i < |temps| {
        assert es[i] == temps[i];
        TemperatureSensorsExactly(deviceId, ts, temps[i]);
      } else {
        assert es[i] == generics[i - |temps|];
        GenericSensorsExactly(snapshot, deviceId, ts, generics[i - |temps|]);
      }
    }
  }

  lemma {:induction false} GenericSensorsSucceed(snapshot: Value, deviceId: string, ts: seq<Triple>)
    requires forall t :: t in ts ==> PayloadValue(snapshot, t).Ok?
    ensures GenericSensors(snapshot, deviceId, ts).Ok?
  {
    if ts != [] {
      GenericSensorsSucceed(snapshot, deviceId, ts[1..]);
    }
  }

  /** The value lookups of the second loop never raise on coordinates the
      traversal reported: the setup fails exactly when the traversal does. */
  lemma SensorSetupFailsOnlyInTraversal(snapshot: Value, deviceId: string)
    requires WellFormed(snapshot)
    ensures SensorEntities(snapshot, deviceId).Raised? <==> IterComponents(Or(snapshot, EmptyDict)).Raised?
  {
    var data := Or(snapshot, EmptyDict);
    assert WellFormed(data);
    if IterComponents(data).Ok? {
      var ts := IterComponents(data).value;
      forall t | t in ts ensures PayloadValue(snapshot, t).Ok? {
        IterComponentsExactly(data, t);
        PayloadValueOfReported(snapshot, t);
      }
      GenericSensorsSucceed(snapshot, deviceId, ts);
    }
  }
}
