/**
 * The binary sensor platform: a door sensor for every component whose
 * capabilities carry a contact attribute, and a plain binary sensor for every
 * attribute whose current value is a bool.
 */
module BinarySensors {
  import opened Py
  import opened Entities
  import opened Sensors

  const ContactCap: string := "contactSensor"
  const ContactAttr: string := "contact"

  /** The strings that read as "on", compared after lower-casing. */
  const OnWords: set<string> := {"on", "open", "detected", "true"}

  /** `is_on` applied to the current value: a bool as is, a string by the
      words above, anything else by Python truthiness. */
  function BinaryIsOn(v: Value): bool {
    match v
    case Bool(b) => b
    case Str(s) => Lower(s) in OnWords
    case _ => Truthy(v)
  }

  /** `is_on` of an entity: reading the current value may raise. */
  function IsOn(snapshot: Value, e: Entity): (r: Result<bool>)
    ensures r.Raised? <==> CurrentAttr(snapshot, e.component, e.capability, e.attribute).Raised?
    ensures r.Ok? ==> r.value == BinaryIsOn(CurrentAttr(snapshot, e.component, e.capability, e.attribute).value)
  {
    var v :- CurrentAttr(snapshot, e.component, e.capability, e.attribute);
    Ok(BinaryIsOn(v))
  }

  /** A string reads as on exactly when its lower-case form is one of the
      four words, so letter case never matters ("Open", "DETECTED"); only
      strings of length 2, 4 or 8 can be on, and "closed", "off" and "false"
      are off although they are truthy. */
  lemma BinaryIsOnOfStrings(s: string, t: string)
    ensures BinaryIsOn(Str(s)) <==> Lower(s) in {"on", "open", "detected", "true"}
    ensures BinaryIsOn(Str(s)) == BinaryIsOn(Str(Lower(s)))
    ensures Lower(s) == Lower(t) ==> BinaryIsOn(Str(s)) == BinaryIsOn(Str(t))
    ensures BinaryIsOn(Str(s)) ==> |s| in {2, 4, 8}
    ensures BinaryIsOn(Str("Open")) && BinaryIsOn(Str("DETECTED")) && BinaryIsOn(Str("on"))
    ensures !BinaryIsOn(Str("closed")) && !BinaryIsOn(Str("false")) && !BinaryIsOn(Str("off"))
  {
    LowerIdempotent(s);
    assert Lower("Open") == "open";
    assert Lower("DETECTED") == "detected";
    assert Lower("on") == "on";
    assert |Lower("closed")| == 6;
    assert |Lower("false")| == 5 && Lower("false")[0] == 'f';
    assert |Lower("off")| == 3;
  }

  // ---------------------------------------------------------------- entities

  function ContactSensor(deviceId: string, component: string): Entity {
    Entity(BinarySensor(Some("door")), component, ContactCap, ContactAttr,
           "ST " + component + " contact", UniqueId(deviceId, component, ContactCap, ContactAttr))
  }

  function BooleanSensor(deviceId: string, t: Triple): Entity {
    Entity(BinarySensor(None), t.component, t.capability, t.attribute,
           "ST " + t.component + " " + t.capability + "." + t.attribute,
           UniqueId(deviceId, t.component, t.capability, t.attribute))
  }

  /** A payload that is a dict whose "value" is a bool. */
  predicate BoolPayload(payload: Value) {
    HasValue(payload) && Find(payload.entries, "value").value.Bool?
  }

  /** The payload at `path` is a dict whose "value" is a bool. */
  predicate BoolReported(v: Value, path: seq<string>) {
    match Follow(v, path)
    case Some(p) => BoolPayload(p)
    case None => false
  }

  /** The capabilities at `path` pass the contact check. */
  predicate ContactReported(v: Value, path: seq<string>) {
    match Follow(v, path)
    case Some(caps) => CapabilityHasAttribute(caps, ContactCap, ContactAttr) == Ok(true)
    case None => false
  }

  // ----------------------------------------------------------------- setup

  /** The innermost loop: a binary sensor per bool-valued attribute. */
  function BooleanAttrs(deviceId: string, comp: string, cap: string, attrs: seq<(string, Value)>): (es: seq<Entity>)
    ensures forall e :: e in es ==> e.component == comp && e.capability == cap && e.attribute in KeysOf(attrs)
  {
    if attrs == [] then []
    else
      (if BoolPayload(attrs[0].1) then [BooleanSensor(deviceId, Triple(comp, cap, attrs[0].0))] else [])
        + BooleanAttrs(deviceId, comp, cap, attrs[1..])
  }

  /** The loop over one component's capabilities. */
  function BooleanCaps(deviceId: string, comp: string, caps: seq<(string, Value)>): (r: Result<seq<Entity>>)
    ensures r.Ok? ==> forall e :: e in r.value ==> e.component == comp && e.capability in KeysOf(caps)
  {
    if caps == [] then Ok([])
    else
      var attrs :- Items(Or(caps[0].1, EmptyDict));
      Then(BooleanAttrs(deviceId, comp, caps[0].0, attrs), BooleanCaps(deviceId, comp, caps[1..]))
  }

  /** What one component contributes: the door sensor first, then its
      bool-valued attributes. */
  function ComponentBinarySensors(deviceId: string, comp: string, caps: Value): (r: Result<seq<Entity>>)
    ensures r.Ok? ==> forall e :: e in r.value ==> e.component == comp
  {
    var contact :- CapabilityHasAttribute(caps, ContactCap, ContactAttr);
    var capEntries :- Items(Or(caps, EmptyDict));
    Then(if contact then [ContactSensor(deviceId, comp)] else [], BooleanCaps(deviceId, comp, capEntries))
  }

  function BinaryComps(deviceId: string, comps: seq<(string, Value)>): (r: Result<seq<Entity>>)
    ensures r.Ok? ==> forall e :: e in r.value ==> e.component in KeysOf(comps)
  {
    if comps == [] then Ok([])
    else
      var first :- ComponentBinarySensors(deviceId, comps[0].0, comps[0].1);
      Then(first, BinaryComps(deviceId, comps[1..]))
  }

  /** The list the binary sensor setup builds. */
  function BinarySensorEntities(snapshot: Value, deviceId: string): Result<seq<Entity>> {
    var comps :- Components(snapshot);
    var es :- Items(comps);
    BinaryComps(deviceId, es)
  }

  /** One iteration of the attribute loop. */
  lemma BooleanAttrsStep(deviceId: string, comp: string, cap: string, attrs: seq<(string, Value)>)
    requires attrs != []
    ensures BooleanAttrs(deviceId, comp, cap, attrs) ==
      (if BoolPayload(attrs[0].1) then [BooleanSensor(deviceId, Triple(comp, cap, attrs[0].0))] else [])
        + BooleanAttrs(deviceId, comp, cap, attrs[1..])
  {
  }

  method AddBooleanAttributes(deviceId: string, comp: string, cap: string, attrs: seq<(string, Value)>, built: seq<Entity>)
    returns (entities: seq<Entity>)
    ensures entities == built + BooleanAttrs(deviceId, comp, cap, attrs)
  {
    ghost var goal := built + BooleanAttrs(deviceId, comp, cap, attrs);
    entities := built;
    assert attrs[0..] == attrs;
    var i := 0;
    while i < |attrs|
      invariant 0 <= i <= |attrs|
      invariant goal == entities + BooleanAttrs(deviceId, comp, cap, attrs[i..])
    {
      var found: seq<Entity> := [];
      if BoolPayload(attrs[i].1) {
        found := [BooleanSensor(deviceId, Triple(comp, cap, attrs[i].0))];
      }
      ghost var rest := BooleanAttrs(deviceId, comp, cap, attrs[i + 1..]);
      BooleanAttrsStep(deviceId, comp, cap, attrs[i..]);
      assert attrs[i..][0] == attrs[i] && attrs[i..][1..] == attrs[i + 1..];
      assert entities + (found + rest) == (entities + found) + rest;
      entities := entities + found;
      i := i + 1;
    }
    assert attrs[i..] == [] && entities + [] == entities;
  }

  /** What one component contributes once the contact check and `items()`
      have succeeded. */
  lemma ComponentBinarySensorsOf(deviceId: string, comp: string, caps: Value, contact: bool, capEntries: seq<(string, Value)>)
    requires CapabilityHasAttribute(caps, ContactCap, ContactAttr) == Ok(contact)
    requires Items(Or(caps, EmptyDict)) == Ok(capEntries)
    ensures ComponentBinarySensors(deviceId, comp, caps) ==
      Then(if contact then [ContactSensor(deviceId, comp)] else [], BooleanCaps(deviceId, comp, capEntries))
  {
  }

  /** One iteration of the capability loop. */
  lemma BooleanCapsStep(deviceId: string, comp: string, caps: seq<(string, Value)>)
    requires caps != []
    ensures var attrs := Items(Or(caps[0].1, EmptyDict));
      BooleanCaps(deviceId, comp, caps) ==
        if attrs.Raised? then Raised(attrs.exc)
        else Then(BooleanAttrs(deviceId, comp, caps[0].0, attrs.value), BooleanCaps(deviceId, comp, caps[1..]))
  {
  }

  /** The capability loop of one component. */
  method AddBooleanCaps(deviceId: string, comp: string, capEntries: seq<(string, Value)>, built: seq<Entity>)
    returns (r: Result<seq<Entity>>)
    ensures r == Then(built, BooleanCaps(deviceId, comp, capEntries))
  {
    ghost var goal := Then(built, BooleanCaps(deviceId, comp, capEntries));
    var entities := built;
    assert capEntries[0..] == capEntries;
    var i := 0;
    while i < |capEntries|
      invariant 0 <= i <= |capEntries|
      invariant goal == Then(entities, BooleanCaps(deviceId, comp, capEntries[i..]))
    {
      var attrs := Items(Or(capEntries[i].1, EmptyDict));
      BooleanCapsStep(deviceId, comp, capEntries[i..]);
      assert capEntries[i..][0] == capEntries[i] && capEntries[i..][1..] == capEntries[i + 1..];
      if attrs.Raised? {
        return Raised(attrs.exc);
      }
      ThenThen(entities, BooleanAttrs(deviceId, comp, capEntries[i].0, attrs.value), BooleanCaps(deviceId, comp, capEntries[i + 1..]));
      entities := AddBooleanAttributes(deviceId, comp, capEntries[i].0, attrs.value, entities);
      i := i + 1;
    }
    assert capEntries[i..] == [] && entities + [] == entities;
    r := Ok(entities);
  }

  method AddComponentBinarySensors(deviceId: string, comp: string, caps: Value, built: seq<Entity>)
    returns (r: Result<seq<Entity>>)
    ensures r == Then(built, ComponentBinarySensors(deviceId, comp, caps))
  {
    var contact := CapabilityHasAttribute(caps, ContactCap, ContactAttr);
    if contact.Raised? {
      return Raised(contact.exc);
    }
    var door: seq<Entity> := if contact.value then [ContactSensor(deviceId, comp)] else [];
    var items := Items(Or(caps, EmptyDict));
    if items.Raised? {
      return Raised(items.exc);
    }
    ComponentBinarySensorsOf(deviceId, comp, caps, contact.value, items.value);
    ThenThen(built, door, BooleanCaps(deviceId, comp, items.value));
    r := AddBooleanCaps(deviceId, comp, items.value, built + door);
  }

  /** `async_setup_entry` of the binary sensor platform. */
  method SetupBinarySensors(snapshot: Value, deviceId: string) returns (r: Setup)
    ensures r == Register(BinarySensorEntities(snapshot, deviceId))
  {
    var comps := Components(snapshot);
    if comps.Raised? {
      return SetupFailed(comps.exc);
    }
    var items := Items(comps.value);
    if items.Raised? {
      return SetupFailed(items.exc);
    }
    var es := items.value;
    var entities: seq<Entity> := [];
    ThenNothing(BinaryComps(deviceId, es));
    var i := 0;
    while i < |es|
      invariant 0 <= i <= |es|
      invariant BinarySensorEntities(snapshot, deviceId) == Then(entities, BinaryComps(deviceId, es[i..]))
    {
      assert es[i..][1..] == es[i + 1..];
      var next := AddComponentBinarySensors(deviceId, es[i].0, es[i].1, entities);
      if next.Raised? {
        return SetupFailed(next.exc);
      }
      ThenThen(entities, ComponentBinarySensors(deviceId, es[i].0, es[i].1).value, BinaryComps(deviceId, es[i + 1..]));
      entities := next.value;
      i := i + 1;
    }
    assert es[i..] == [] && entities + [] == entities;
    if |entities| > 0 {
      r := Registered(entities);
    } else {
      r := NothingRegistered;
    }
  }

  // ------------------------------------------------------------ properties

  lemma {:induction false} BooleanAttrsExactly(deviceId: string, comp: string, cap: string, attrs: seq<(string, Value)>, e: Entity)
    requires UniqueKeys(attrs)
    ensures e in BooleanAttrs(deviceId, comp, cap, attrs) <==>
      e == BooleanSensor(deviceId, Triple(comp, cap, e.attribute)) && BoolReported(Dict(attrs), [e.attribute])
  {
    if attrs != [] {
      UniqueKeysTail(attrs);
      BooleanAttrsExactly(deviceId, comp, cap, attrs[1..], e);
      FollowStep(attrs, [e.attribute]);
      assert [e.attribute][1..] == [];
    }
  }

  /** The boolean sensors one capability contributes. */
  lemma CapabilityBooleans(deviceId: string, comp: string, cap: string, x: Value, e: Entity)
    requires WellFormed(x) && Items(Or(x, EmptyDict)).Ok?
    ensures e in BooleanAttrs(deviceId, comp, cap, Items(Or(x, EmptyDict)).value) <==>
      e == BooleanSensor(deviceId, Triple(comp, cap, e.attribute)) && BoolReported(x, [e.attribute])
  {
    if x.Dict? && x.entries != [] {
      BooleanAttrsExactly(deviceId, comp, cap, x.entries, e);
    } else {
      assert Items(Or(x, EmptyDict)).value == [];
      assert !BoolReported(x, [e.attribute]);
    }
  }

  lemma {:induction false} BooleanCapsExactly(deviceId: string, comp: string, caps: seq<(string, Value)>, e: Entity)
    requires WellFormed(Dict(caps)) && BooleanCaps(deviceId, comp, caps).Ok?
    ensures e in BooleanCaps(deviceId, comp, caps).value <==>
      e == BooleanSensor(deviceId, Triple(comp, e.capability, e.attribute)) && BoolReported(Dict(caps), [e.capability, e.attribute])
  {
    if caps != [] {
      var path := [e.capability, e.attribute];
      WellFormedSplit(caps);
      BooleanCapsExactly(deviceId, comp, caps[1..], e);
      CapabilityBooleans(deviceId, comp, caps[0].0, caps[0].1, e);
      FollowStep(caps, path);
      assert path[1..] == [e.attribute];
    }
  }

  lemma ComponentBinarySensorsExactly(deviceId: string, comp: string, caps: Value, e: Entity)
    requires WellFormed(caps) && ComponentBinarySensors(deviceId, comp, caps).Ok?
    ensures e in ComponentBinarySensors(deviceId, comp, caps).value <==>
      (e == ContactSensor(deviceId, comp) && CapabilityHasAttribute(caps, ContactCap, ContactAttr) == Ok(true)) ||
      (e == BooleanSensor(deviceId, Triple(comp, e.capability, e.attribute)) && BoolReported(caps, [e.capability, e.attribute]))
  {
    var capEntries := Items(Or(caps, EmptyDict)).value;
    if caps.Dict? && caps.entries != [] {
      BooleanCapsExactly(deviceId, comp, capEntries, e);
    } else {
      assert capEntries == [];
      assert !BoolReported(caps, [e.capability, e.attribute]);
    }
  }

  lemma {:induction false} BinaryCompsExactly(deviceId: string, comps: seq<(string, Value)>, e: Entity)
    requires WellFormed(Dict(comps)) && BinaryComps(deviceId, comps).Ok?
    ensures e in BinaryComps(deviceId, comps).value <==>
      (e == ContactSensor(deviceId, e.component) && ContactReported(Dict(comps), [e.component])) ||
      (e == BooleanSensor(deviceId, Triple(e.component, e.capability, e.attribute)) &&
       BoolReported(Dict(comps), [e.component, e.capability, e.attribute]))
  {
    if comps != [] {
      var path := [e.component, e.capability, e.attribute];
      WellFormedSplit(comps);
      BinaryCompsExactly(deviceId, comps[1..], e);
      ComponentBinarySensorsExactly(deviceId, comps[0].0, comps[0].1, e);
      FollowStep(comps, path);
      FollowStep(comps, [e.component]);
      assert path[1..] == [e.capability, e.attribute];
      assert [e.component][1..] == [];
    }
  }

  /** Without exceptions, the binary sensors are exactly a door sensor for
      each component whose capabilities pass the contact check, and a plain
      binary sensor for each attribute whose payload is a dict whose "value"
      is a bool. */
  lemma BinarySensorEntitiesExactly(snapshot: Value, deviceId: string, e: Entity)
    requires WellFormed(snapshot) && BinarySensorEntities(snapshot, deviceId).Ok?
    ensures e in BinarySensorEntities(snapshot, deviceId).value <==>
      (e == ContactSensor(deviceId, e.component) &&
       ContactReported(Or(snapshot, EmptyDict), ["components", e.component])) ||
      (e == BooleanSensor(deviceId, Triple(e.component, e.capability, e.attribute)) &&
       BoolReported(Or(snapshot, EmptyDict), PayloadPath(Triple(e.component, e.capability, e.attribute))))
  {
    var data := Or(snapshot, EmptyDict);
    var path := PayloadPath(Triple(e.component, e.capability, e.attribute));
    var cpath := ["components", e.component];
    if data.Dict? && Find(data.entries, "components").Some? {
      var c := Find(data.entries, "components").value;
      FindWellFormed(data.entries, "components");
      assert path[1..] == [e.component, e.capability, e.attribute];
      assert cpath[1..] == [e.component];
      assert Follow(data, path) == Follow(c, path[1..]);
      assert Follow(data, cpath) == Follow(c, cpath[1..]);
      if c.Dict? && c.entries != [] {
        BinaryCompsExactly(deviceId, c.entries, e);
      } else {
        assert !BoolReported(c, path[1..]);
        assert !ContactReported(c, [e.component]);
      }
    }
  }

  /** When the contact attribute itself holds a bool, the component gets both
      a door sensor and a plain binary sensor for the same coordinate, under
      the same unique id. */
  lemma ContactBoolGetsTwoSensors(snapshot: Value, deviceId: string, comp: string)
    requires WellFormed(snapshot) && BinarySensorEntities(snapshot, deviceId).Ok?
    requires BoolReported(Or(snapshot, EmptyDict), PayloadPath(Triple(comp, ContactCap, ContactAttr)))
    ensures ContactSensor(deviceId, comp) in BinarySensorEntities(snapshot, deviceId).value
    ensures BooleanSensor(deviceId, Triple(comp, ContactCap, ContactAttr)) in BinarySensorEntities(snapshot, deviceId).value
    ensures ContactSensor(deviceId, comp) != BooleanSensor(deviceId, Triple(comp, ContactCap, ContactAttr))
    ensures ContactSensor(deviceId, comp).uniqueId == BooleanSensor(deviceId, Triple(comp, ContactCap, ContactAttr)).uniqueId
  {
    var data := Or(snapshot, EmptyDict);
    var t := Triple(comp, ContactCap, ContactAttr);
    var path := PayloadPath(t);
    var cpath := ["components", comp];
    assert path == cpath + [ContactCap, ContactAttr];
    FollowAppend(data, cpath, [ContactCap, ContactAttr]);
    var caps := Follow(data, cpath).value;
    assert [ContactCap, ContactAttr][1..] == [ContactAttr];
    var attrs := Find(caps.entries, ContactCap).value;
    assert Follow(caps, [ContactCap, ContactAttr]) == Follow(attrs, [ContactAttr]);
    assert Find(attrs.entries, ContactAttr).Some?;
    assert CapabilityHasAttribute(caps, ContactCap, ContactAttr) == Ok(true);
    BinarySensorEntitiesExactly(snapshot, deviceId, ContactSensor(deviceId, comp));
    BinarySensorEntitiesExactly(snapshot, deviceId, BooleanSensor(deviceId, t));
  }

  /** A component whose capabilities value is None, a bool or a number makes
      the setup raise: `in` is not defined on it. The sensor traversal skips
      None, False and zero there, and raises on the truthy ones. */
  lemma {:induction false} BinaryCompsRaiseOnScalarCaps(deviceId: string, comps: seq<(string, Value)>, i: nat)
    requires i < |comps| && (comps[i].1.Null? || comps[i].1.Bool? || comps[i].1.Int? || comps[i].1.Float?)
    ensures BinaryComps(deviceId, comps).Raised?
  {
    if i > 0 && ComponentBinarySensors(deviceId, comps[0].0, comps[0].1).Ok? {
      BinaryCompsRaiseOnScalarCaps(deviceId, comps[1..], i - 1);
    }
  }

  lemma BinarySetupRaisesOnScalarCaps(snapshot: Value, deviceId: string, comp: string)
    requires Follow(Or(snapshot, EmptyDict), ["components", comp]).Some?
    requires var caps := Follow(Or(snapshot, EmptyDict), ["components", comp]).value;
      caps.Null? || caps.Bool? || caps.Int? || caps.Float?
    ensures BinarySensorEntities(snapshot, deviceId).Raised?
    ensures IterComponents(Or(snapshot, EmptyDict)).Ok? ==> SensorEntities(snapshot, deviceId).Ok? || !WellFormed(snapshot)
  {
    var data := Or(snapshot, EmptyDict);
    var cpath := ["components", comp];
    assert cpath[1..] == [comp] && [comp][1..] == [];
    FollowFirst(data, cpath);
    var c := Find(data.entries, "components").value;
    FollowFirst(c, [comp]);
    var caps := Find(c.entries, comp).value;
    assert Follow(data, cpath) == Some(caps);
    assert data == snapshot && HasComponents(snapshot);
    assert Components(snapshot) == Ok(c) && Items(c) == Ok(c.entries);
    FindIn(c.entries, comp, caps);
    var i :| 0 <= i < |c.entries| && c.entries[i] == (comp, caps);
    BinaryCompsRaiseOnScalarCaps(deviceId, c.entries, i);
    if WellFormed(snapshot) {
      SensorSetupFailsOnlyInTraversal(snapshot, deviceId);
    }
  }
}
