/**
 * What every platform entity shares: the identity it stores at construction,
 * how it reads its current value out of the coordinator's snapshot, the state
 * attributes and device it reports, and how it sends a command.
 */
module Entities {
  import opened Py
  import opened Api

  const Domain: string := "st_components"
  const Celsius: string := "°C"

  /** The platform an entity belongs to, with its per-platform settings. */
  datatype Kind =
    | Sensor(deviceClass: Option<string>, unit: Option<string>)
    | BinarySensor(deviceClass: Option<string>)
    | Setpoint(nativeUnit: string, nativeStep: real)
    | PowerModeSwitch

  /** An entity as constructed: the snapshot coordinates it reads and the name
      and unique id it is registered under. Nothing of it changes afterwards. */
  datatype Entity = Entity(
    kind: Kind,
    component: string,
    capability: string,
    attribute: string,
    name: string,
    uniqueId: string)

  /** The outcome of a platform's setup: the list handed to the host (only
      when non-empty), nothing, or the exception that aborted the setup. */
  datatype Setup = Registered(entities: seq<Entity>) | NothingRegistered | SetupFailed(exc: Exc)

  /** `if entities: async_add_entities(entities)`, after building the list. */
  function Register(built: Result<seq<Entity>>): (r: Setup)
    ensures r.Registered? <==> built.Ok? && built.value != []
    ensures r.Registered? ==> r.entities == built.value && |r.entities| > 0
    ensures r.NothingRegistered? <==> built == Ok([])
    ensures r.SetupFailed? <==> built.Raised?
  {
    match built
    case Raised(e) => SetupFailed(e)
    case Ok(es) => if |es| > 0 then Registered(es) else NothingRegistered
  }

  /** No two entities read the same component. */
  predicate OnePerComponent(es: seq<Entity>) {
    forall i, j :: 0 <= i < j < |es| ==> es[i].component != es[j].component
  }

  /** No two entities read the same capability of the same component. */
  predicate OnePerCapability(es: seq<Entity>) {
    forall i, j :: 0 <= i < j < |es| ==> (es[i].component, es[i].capability) != (es[j].component, es[j].capability)
  }

  lemma OnePerComponentAppend(a: seq<Entity>, b: seq<Entity>)
    requires OnePerComponent(a) && OnePerComponent(b)
    requires forall x, y :: x in a && y in b ==> x.component != y.component
    ensures OnePerComponent(a + b)
  {
    forall i, j | 0 <= i < j < |a + b|
      ensures (a + b)[i].component != (a + b)[j].component
    {
      if j < |a| {
        assert (a + b)[i] == a[i] && (a + b)[j] == a[j];
      } else if i >= |a| {
        assert (a + b)[i] == b[i - |a|] && (a + b)[j] == b[j - |a|];
      } else {
        assert (a + b)[i] == a[i] && (a + b)[j] == b[j - |a|];
      }
    }
  }

  lemma OnePerCapabilityAppend(a: seq<Entity>, b: seq<Entity>)
    requires OnePerCapability(a) && OnePerCapability(b)
    requires forall x, y :: x in a && y in b ==> (x.component, x.capability) != (y.component, y.capability)
    ensures OnePerCapability(a + b)
  {
    forall i, j | 0 <= i < j < |a + b|
      ensures ((a + b)[i].component, (a + b)[i].capability) != ((a + b)[j].component, (a + b)[j].capability)
    {
      if j < |a| {
        assert (a + b)[i] == a[i] && (a + b)[j] == a[j];
      } else if i >= |a| {
        assert (a + b)[i] == b[i - |a|] && (a + b)[j] == b[j - |a|];
      } else {
        assert (a + b)[i] == a[i] && (a + b)[j] == b[j - |a|];
      }
    }
  }

  /** The unique id every platform gives an entity. */
  function UniqueId(deviceId: string, component: string, capability: string, attribute: string): string {
    deviceId + "-" + component + "-" + capability + "-" + attribute
  }

  /** The snapshot is a dict holding a truthy "components" value. */
  predicate HasComponents(snapshot: Value) {
    snapshot.Dict? && Find(snapshot.entries, "components").Some? && Truthy(Find(snapshot.entries, "components").value)
  }

  /** `(coord.data or {}).get("components") or {}`. */
  function Components(snapshot: Value): (r: Result<Value>)
    ensures r.Raised? <==> Truthy(snapshot) && !snapshot.Dict?
    ensures r.Ok? ==> Truthy(r.value) || r.value == EmptyDict
    ensures HasComponents(snapshot) ==> r == Ok(Find(snapshot.entries, "components").value)
    ensures r.Ok? && !HasComponents(snapshot) ==> r.value == EmptyDict
  {
    var comps :- Get(Or(snapshot, EmptyDict), "components", Null);
    Ok(Or(comps, EmptyDict))
  }

  /** `cap in caps and attr in caps[cap]`, with Python's `in` and subscript
      on whatever the capabilities value is: a dict tests its keys, a list its
      elements and a string its substrings; None, a bool or a number raises
      TypeError, and so does subscripting anything but a dict. */
  function CapabilityHasAttribute(caps: Value, capability: string, attribute: string): (r: Result<bool>)
    ensures r == Ok(true) <==> caps.Dict? && match Find(caps.entries, capability)
                                             case Some(attrs) => Contains(attrs, attribute) == Ok(true)
                                             case None => false
    ensures r.Raised? ==> r.exc == TypeError
  {
    var hasCap :- Contains(caps, capability);
    if !hasCap then Ok(false)
    else
      var attrs :- Subscript(caps, capability);
      Contains(attrs, attribute)
  }

  // ------------------------------------------------------------ current value

  /** `_current_attr`: `components[comp][cap][attr]["value"]`, each level
      looked up with `or {}`. */
  function CurrentAttr(snapshot: Value, component: string, capability: string, attribute: string): Result<Value> {
    var comps :- Components(snapshot);
    var comp :- Get(comps, component, Null);
    var cap :- Get(Or(comp, EmptyDict), capability, Null);
    var attr :- Get(Or(cap, EmptyDict), attribute, Null);
    Get(Or(attr, EmptyDict), "value", Null)
  }

  function ValuePath(component: string, capability: string, attribute: string): seq<string> {
    ["components", component, capability, attribute, "value"]
  }

  /** The current value is `components[comp][cap][attr]["value"]` when every
      level is present; it is None when some level is missing, None or empty;
      and reading it raises only when a level is a non-empty non-dict. */
  lemma CurrentAttrMeaning(snapshot: Value, component: string, capability: string, attribute: string)
    ensures var path := ValuePath(component, capability, attribute);
      CurrentAttr(snapshot, component, capability, attribute) ==
        if DictsAlong(snapshot, path) then Ok(match Follow(snapshot, path) case Some(x) => x case None => Null)
        else Raised(AttributeError)
  {
    var path := ValuePath(component, capability, attribute);
    var p1, p2, p3, p4 := path[1..], path[2..], path[3..], path[4..];
    assert p1 == [component, capability, attribute, "value"] && p1[1..] == p2;
    assert p2 == [capability, attribute, "value"] && p2[1..] == p3;
    assert p3 == [attribute, "value"] && p3[1..] == p4;
    assert p4 == ["value"] && p4[1..] == [];
    var r0 := Get(Or(snapshot, EmptyDict), "components", Null);
    if r0.Ok? {
      var r1 := Get(Or(r0.value, EmptyDict), component, Null);
      if r1.Ok? {
        var r2 := Get(Or(r1.value, EmptyDict), capability, Null);
        if r2.Ok? {
          var r3 := Get(Or(r2.value, EmptyDict), attribute, Null);
          if r3.Ok? {
            assert Walk(r3.value, p4) == Get(Or(r3.value, EmptyDict), "value", Null);
          }
          assert Walk(r2.value, p3) == CurrentAttr(snapshot, component, capability, attribute);
        }
        assert Walk(r1.value, p2) == CurrentAttr(snapshot, component, capability, attribute);
      }
      assert Walk(r0.value, p1) == CurrentAttr(snapshot, component, capability, attribute);
    }
    assert CurrentAttr(snapshot, component, capability, attribute) == Walk(snapshot, path);
    WalkMeaning(snapshot, path);
  }

  // ------------------------------------------------------ reported attributes

  /** `extra_state_attributes`. */
  function ExtraStateAttributes(e: Entity): (attrs: map<string, string>)
    ensures attrs.Keys == {"st_component", "st_capability", "st_attribute"}
    ensures attrs["st_component"] == e.component && attrs["st_capability"] == e.capability &&
            attrs["st_attribute"] == e.attribute
  {
    map["st_component" := e.component, "st_capability" := e.capability, "st_attribute" := e.attribute]
  }

  /** The state attributes identify exactly the snapshot coordinates the entity
      reads. */
  lemma ExtraStateAttributesIdentify(e1: Entity, e2: Entity)
    ensures ExtraStateAttributes(e1) == ExtraStateAttributes(e2) <==>
      (e1.component, e1.capability, e1.attribute) == (e2.component, e2.capability, e2.attribute)
  {
    if ExtraStateAttributes(e1) == ExtraStateAttributes(e2) {
      assert ExtraStateAttributes(e1)["st_component"] == e2.component;
      assert ExtraStateAttributes(e1)["st_capability"] == e2.capability;
      assert ExtraStateAttributes(e1)["st_attribute"] == e2.attribute;
    }
  }

  datatype DeviceInfo = DeviceInfo(identifiers: set<(string, string)>, name: string, manufacturer: string)

  /** `device_info`: every entity of a coordinator reports the same device,
      identified by the integration's domain and the coordinator's device id. */
  function EntityDeviceInfo(deviceId: string): (info: DeviceInfo)
    ensures info.identifiers == {(Domain, deviceId)}
    ensures info.name == "SmartThings Device" && info.manufacturer == "SmartThings"
  {
    DeviceInfo({(Domain, deviceId)}, "SmartThings Device", "SmartThings")
  }

  /** Two coordinators' entities share a device exactly when they poll the same
      device id. */
  lemma DeviceInfoIdentifiesDevice(a: string, b: string)
    ensures EntityDeviceInfo(a) == EntityDeviceInfo(b) <==> a == b
  {
    if EntityDeviceInfo(a) == EntityDeviceInfo(b) {
      assert (Domain, a) in EntityDeviceInfo(b).identifiers;
    }
  }

  // ----------------------------------------------------------------- commands

  /** `_send`: the command the entity asks its coordinator to send, on its own
      component, with absent or empty arguments replaced by `[]`. */
  function Send(e: Entity, capability: string, command: string, arguments: Value): (c: Command)
    ensures c.component == e.component && c.capability == capability && c.command == command
    ensures Truthy(arguments) ==> c.arguments == arguments
    ensures !Truthy(arguments) ==> c.arguments == EmptyList
    ensures Or(c.arguments, EmptyList) == c.arguments
  {
    Command(e.component, capability, command, Or(arguments, EmptyList))
  }
}
