/**
 * The switch platform: one power-mode switch per capability whose name ends
 * in "powerCool" or "powerFreeze", reading the capability's first attribute
 * and turned on and off by the capability's activate and deactivate commands.
 */
module Switches {
  import opened Py
  import opened Api
  import opened Entities
  import opened BinarySensors

  /** The strings that read as "on", compared after lower-casing. */
  const SwitchOnWords: set<string> := {"on", "active", "true"}

  /** The attribute read when the capability has none. */
  const DefaultAttribute: string := "state"

  /** `is_on` applied to the current value. */
  function SwitchIsOn(v: Value): bool {
    match v
    case Bool(b) => b
    case Str(s) => Lower(s) in SwitchOnWords
    case _ => Truthy(v)
  }

  /** `is_on` of a switch: reading the current value may raise. */
  function SwitchIsOnOf(snapshot: Value, e: Entity): (r: Result<bool>)
    ensures r.Raised? <==> CurrentAttr(snapshot, e.component, e.capability, e.attribute).Raised?
    ensures r.Ok? ==> r.value == SwitchIsOn(CurrentAttr(snapshot, e.component, e.capability, e.attribute).value)
  {
    var v :- CurrentAttr(snapshot, e.component, e.capability, e.attribute);
    Ok(SwitchIsOn(v))
  }

  /** A switch and a binary sensor read the same value the same way, except a
      string that lower-cases to "open" or "detected" (on only for the binary
      sensor) or to "active" (on only for the switch). */
  lemma {:induction false} SwitchAndBinarySensorReadings(v: Value)
    ensures SwitchIsOn(v) != BinaryIsOn(v) <==> v.Str? && Lower(v.s) in {"open", "detected", "active"}
    ensures v.Str? && Lower(v.s) == "active" ==> SwitchIsOn(v) && !BinaryIsOn(v)
  {
    if v.Str? {
      var l := Lower(v.s);
      assert l in SwitchOnWords <==> l == "on" || l == "active" || l == "true";
      assert l in OnWords <==> l == "on" || l == "open" || l == "detected" || l == "true";
    }
  }

  // ---------------------------------------------------------------- commands

  /** `async_turn_on`: activate the switch's capability with no arguments. */
  function TurnOn(e: Entity): (c: Command)
    ensures ParseCommandBody(CommandBody(c)) == Some(Command(e.component, e.capability, "activate", EmptyList))
  {
    var c := Send(e, e.capability, "activate", EmptyList);
    CommandBodyRoundTrip(c);
    c
  }

  /** `async_turn_off`: deactivate the switch's capability with no arguments. */
  function TurnOff(e: Entity): (c: Command)
    ensures ParseCommandBody(CommandBody(c)) == Some(Command(e.component, e.capability, "deactivate", EmptyList))
  {
    var c := Send(e, e.capability, "deactivate", EmptyList);
    CommandBodyRoundTrip(c);
    c
  }

  /** Turning on and off address the same component and capability and send
      bodies that differ only in the command. */
  lemma TurnOnOffDiffer(e: Entity)
    ensures TurnOn(e).component == TurnOff(e).component == e.component
    ensures TurnOn(e).capability == TurnOff(e).capability == e.capability
    ensures CommandBody(TurnOn(e)) != CommandBody(TurnOff(e))
  {
    assert ParseCommandBody(CommandBody(TurnOn(e))) != ParseCommandBody(CommandBody(TurnOff(e)));
  }

  // ----------------------------------------------------------------- setup

  predicate IsPowerMode(capability: string) {
    EndsWith(capability, "powerCool") || EndsWith(capability, "powerFreeze")
  }

  /** `next(iter(attrs.keys()), "state")`: the first attribute in document
      order, or "state" when there is none; anything but a dict raises. */
  function SwitchAttribute(attrs: Value): (r: Result<string>)
    ensures r.Ok? <==> attrs.Dict?
    ensures r.Raised? ==> r.exc == AttributeError
    ensures r.Ok? && attrs.entries != [] ==> r.value == attrs.entries[0].0 && Find(attrs.entries, r.value) == Some(attrs.entries[0].1)
    ensures r.Ok? && attrs.entries == [] ==> r.value == DefaultAttribute
  {
    var ks :- Keys(attrs);
    Ok(if ks == [] then DefaultAttribute else ks[0])
  }

  function PowerSwitch(deviceId: string, comp: string, cap: string, attr: string): Entity {
    Entity(PowerModeSwitch, comp, cap, attr, "ST " + comp + " " + cap, UniqueId(deviceId, comp, cap, attr))
  }

  /** The loop over one component's capabilities. */
  function SwitchCaps(deviceId: string, comp: string, caps: seq<(string, Value)>): (r: Result<seq<Entity>>)
    ensures r.Ok? ==> forall e :: e in r.value ==> e.component == comp && e.capability in KeysOf(caps)
  {
    if caps == [] then Ok([])
    else if IsPowerMode(caps[0].0) then
      var attr :- SwitchAttribute(caps[0].1);
      Then([PowerSwitch(deviceId, comp, caps[0].0, attr)], SwitchCaps(deviceId, comp, caps[1..]))
    else SwitchCaps(deviceId, comp, caps[1..])
  }

  function SwitchComps(deviceId: string, comps: seq<(string, Value)>): (r: Result<seq<Entity>>)
    ensures r.Ok? ==> forall e :: e in r.value ==> e.component in KeysOf(comps)
  {
    if comps == [] then Ok([])
    else
      var caps :- Items(Or(comps[0].1, EmptyDict));
      var first :- SwitchCaps(deviceId, comps[0].0, caps);
      Then(first, SwitchComps(deviceId, comps[1..]))
  }

  /** The list the switch setup builds. */
  function SwitchEntities(snapshot: Value, deviceId: string): Result<seq<Entity>> {
    var comps :- Components(snapshot);
    var es :- Items(comps);
    SwitchComps(deviceId, es)
  }

  /** One iteration of the capability loop. */
  lemma SwitchCapsStep(deviceId: string, comp: string, caps: seq<(string, Value)>)
    requires caps != []
    ensures var attr := SwitchAttribute(caps[0].1);
      SwitchCaps(deviceId, comp, caps) ==
        if !IsPowerMode(caps[0].0) then SwitchCaps(deviceId, comp, caps[1..])
        else if attr.Raised? then Raised(attr.exc)
        else Then([PowerSwitch(deviceId, comp, caps[0].0, attr.value)], SwitchCaps(deviceId, comp, caps[1..]))
  {
  }

  /** One iteration of the component loop. */
  lemma SwitchCompsStep(deviceId: string, comps: seq<(string, Value)>)
    requires comps != []
    ensures var caps := Items(Or(comps[0].1, EmptyDict));
      SwitchComps(deviceId, comps) ==
        if caps.Raised? then Raised(caps.exc)
        else
          var first := SwitchCaps(deviceId, comps[0].0, caps.value);
          if first.Raised? then Raised(first.exc)
          else Then(first.value, SwitchComps(deviceId, comps[1..]))
  {
  }

  method AddComponentSwitches(deviceId: string, comp: string, caps: seq<(string, Value)>, built: seq<Entity>)
    returns (r: Result<seq<Entity>>)
    ensures r == Then(built, SwitchCaps(deviceId, comp, caps))
  {
    ghost var goal := Then(built, SwitchCaps(deviceId, comp, caps));
    var entities := built;
    assert caps[0..] == caps;
    var i := 0;
    while i < |caps|
      invariant 0 <= i <= |caps|
      invariant goal == Then(entities, SwitchCaps(deviceId, comp, caps[i..]))
    {
      SwitchCapsStep(deviceId, comp, caps[i..]);
      assert caps[i..][0] == caps[i] && caps[i..][1..] == caps[i + 1..];
      var name := caps[i].0;
      if EndsWith(name, "powerCool") || EndsWith(name, "powerFreeze") {
        var attr := SwitchAttribute(caps[i].1);
        if attr.Raised? {
          return Raised(attr.exc);
        }
        ThenThen(entities, [PowerSwitch(deviceId, comp, name, attr.value)], SwitchCaps(deviceId, comp, caps[i + 1..]));
        entities := entities + [PowerSwitch(deviceId, comp, name, attr.value)];
      }
      i := i + 1;
    }
    assert caps[i..] == [] && entities + [] == entities;
    r := Ok(entities);
  }

  /** `async_setup_entry` of the switch platform. */
  method SetupSwitches(snapshot: Value, deviceId: string) returns (r: Setup)
    ensures r == Register(SwitchEntities(snapshot, deviceId))
  {
    var comps := Components(snapshot);
    if comps.Raised? {
      return SetupFailed(comps.exc);
    }
    var items := Items(comps.value);
    if items.Raised? {
      return SetupFailed(items.exc);
    }
    var es := items.value;
    var entities: seq<Entity> := [];
    ThenNothing(SwitchComps(deviceId, es));
    var i := 0;
    while i < |es|
      invariant 0 <= i <= |es|
      invariant SwitchEntities(snapshot, deviceId) == Then(entities, SwitchComps(deviceId, es[i..]))
    {
      assert es[i..][1..] == es[i + 1..];
      var caps := Items(Or(es[i].1, EmptyDict));
      if caps.Raised? {
        return SetupFailed(caps.exc);
      }
      var next := AddComponentSwitches(deviceId, es[i].0, caps.value, entities);
      if next.Raised? {
        return SetupFailed(next.exc);
      }
      ThenThen(entities, SwitchCaps(deviceId, es[i].0, caps.value).value, SwitchComps(deviceId, es[i + 1..]));
      entities := next.value;
      i := i + 1;
    }
    assert es[i..] == [] && entities + [] == entities;
    if |entities| > 0 {
      r := Registered(entities);
    } else {
      r := NothingRegistered;
    }
  }

  // ------------------------------------------------------------ properties

  /** The attributes at `path` are a dict and `attr` is the one a switch on
      them reads. */
  predicate SwitchReads(v: Value, path: seq<string>, attr: string) {
    match Follow(v, path)
    case Some(attrs) => SwitchAttribute(attrs) == Ok(attr)
    case None => false
  }

  lemma {:induction false} SwitchCapsExactly(deviceId: string, comp: string, caps: seq<(string, Value)>, e: Entity)
    requires UniqueKeys(caps) && SwitchCaps(deviceId, comp, caps).Ok?
    ensures e in SwitchCaps(deviceId, comp, caps).value <==>
      e == PowerSwitch(deviceId, comp, e.capability, e.attribute) && IsPowerMode(e.capability) &&
      SwitchReads(Dict(caps), [e.capability], e.attribute)
  {
    if caps != [] {
      UniqueKeysTail(caps);
      SwitchCapsStep(deviceId, comp, caps);
      SwitchCapsExactly(deviceId, comp, caps[1..], e);
      FollowStep(caps, [e.capability]);
      assert [e.capability][1..] == [];
    }
  }

  /** What one component's capabilities contribute. */
  lemma ComponentSwitches(deviceId: string, comp: string, x: Value, e: Entity)
    requires WellFormed(x) && Items(Or(x, EmptyDict)).Ok?
    requires SwitchCaps(deviceId, comp, Items(Or(x, EmptyDict)).value).Ok?
    ensures e in SwitchCaps(deviceId, comp, Items(Or(x, EmptyDict)).value).value <==>
      e.component == comp &&
      e == PowerSwitch(deviceId, comp, e.capability, e.attribute) && IsPowerMode(e.capability) &&
      SwitchReads(x, [e.capability], e.attribute)
  {
    if x.Dict? && x.entries != [] {
      SwitchCapsExactly(deviceId, comp, x.entries, e);
    } else {
      assert Items(Or(x, EmptyDict)).value == [];
      assert !SwitchReads(x, [e.capability], e.attribute);
    }
  }

  lemma {:induction false} SwitchCompsExactly(deviceId: string, comps: seq<(string, Value)>, e: Entity)
    requires WellFormed(Dict(comps)) && SwitchComps(deviceId, comps).Ok?
    ensures e in SwitchComps(deviceId, comps).value <==>
      e == PowerSwitch(deviceId, e.component, e.capability, e.attribute) && IsPowerMode(e.capability) &&
      SwitchReads(Dict(comps), [e.component, e.capability], e.attribute)
  {
    if comps != [] {
      var path := [e.component, e.capability];
      WellFormedSplit(comps);
      SwitchCompsStep(deviceId, comps);
      SwitchCompsExactly(deviceId, comps[1..], e);
      ComponentSwitches(deviceId, comps[0].0, comps[0].1, e);
      FollowStep(comps, path);
      assert path[1..] == [e.capability];
    }
  }

  /** Without exceptions, the switches are exactly one per power-mode
      capability, reading the capability's first attribute (or "state"), named
      after the component and capability. */
  lemma SwitchEntitiesExactly(snapshot: Value, deviceId: string, e: Entity)
    requires WellFormed(snapshot) && SwitchEntities(snapshot, deviceId).Ok?
    ensures e in SwitchEntities(snapshot, deviceId).value <==>
      e == PowerSwitch(deviceId, e.component, e.capability, e.attribute) && IsPowerMode(e.capability) &&
      SwitchReads(Or(snapshot, EmptyDict), ["components", e.component, e.capability], e.attribute)
  {
    var data := Or(snapshot, EmptyDict);
    var path := ["components", e.component, e.capability];
    if data.Dict? && Find(data.entries, "components").Some? {
      var c := Find(data.entries, "components").value;
      FindWellFormed(data.entries, "components");
      assert path[1..] == [e.component, e.capability];
      assert Follow(data, path) == Follow(c, path[1..]);
      if c.Dict? && c.entries != [] {
        SwitchCompsExactly(deviceId, c.entries, e);
      } else {
        assert !SwitchReads(c, path[1..], e.attribute);
      }
    }
  }

  lemma {:induction false} SwitchCapsOnePerCapability(deviceId: string, comp: string, caps: seq<(string, Value)>)
    requires UniqueKeys(caps) && SwitchCaps(deviceId, comp, caps).Ok?
    ensures OnePerCapability(SwitchCaps(deviceId, comp, caps).value)
  {
    if caps != [] {
      UniqueKeysTail(caps);
      SwitchCapsStep(deviceId, comp, caps);
      SwitchCapsOnePerCapability(deviceId, comp, caps[1..]);
      if IsPowerMode(caps[0].0) {
        var attr := SwitchAttribute(caps[0].1).value;
        OnePerCapabilityAppend([PowerSwitch(deviceId, comp, caps[0].0, attr)], SwitchCaps(deviceId, comp, caps[1..]).value);
      }
    }
  }

  lemma {:induction false} SwitchCompsOnePerCapability(deviceId: string, comps: seq<(string, Value)>)
    requires WellFormed(Dict(comps)) && SwitchComps(deviceId, comps).Ok?
    ensures OnePerCapability(SwitchComps(deviceId, comps).value)
  {
    if comps != [] {
      WellFormedSplit(comps);
      SwitchCompsStep(deviceId, comps);
      SwitchCompsOnePerCapability(deviceId, comps[1..]);
      var caps := Items(Or(comps[0].1, EmptyDict)).value;
      assert UniqueKeys(caps);
      SwitchCapsOnePerCapability(deviceId, comps[0].0, caps);
      OnePerCapabilityAppend(SwitchCaps(deviceId, comps[0].0, caps).value, SwitchComps(deviceId, comps[1..]).value);
    }
  }

  /** No capability gets two switches: with the membership lemma above, the
      list holds exactly one switch per power-mode capability. */
  lemma SwitchEntitiesOnePerCapability(snapshot: Value, deviceId: string)
    requires WellFormed(snapshot) && SwitchEntities(snapshot, deviceId).Ok?
    ensures OnePerCapability(SwitchEntities(snapshot, deviceId).value)
  {
    var c := Components(snapshot).value;
    if HasComponents(snapshot) {
      FindWellFormed(snapshot.entries, "components");
    }
    assert SwitchEntities(snapshot, deviceId) == SwitchComps(deviceId, c.entries);
    SwitchCompsOnePerCapability(deviceId, c.entries);
  }

  /** A power-mode capability whose attributes are not a dict (None included,
      which the other platforms skip) makes the setup raise. */
  lemma {:induction false} SwitchCapsRaiseOnNonDict(deviceId: string, comp: string, caps: seq<(string, Value)>, i: nat)
    requires i < |caps| && IsPowerMode(caps[i].0) && !caps[i].1.Dict?
    ensures SwitchCaps(deviceId, comp, caps).Raised?
  {
    if i > 0 {
      SwitchCapsRaiseOnNonDict(deviceId, comp, caps[1..], i - 1);
    }
  }

  lemma {:induction false} SwitchCompsRaiseOnNonDict(deviceId: string, comps: seq<(string, Value)>, i: nat, j: nat)
    requires i < |comps| && comps[i].1.Dict? && j < |comps[i].1.entries|
    requires IsPowerMode(comps[i].1.entries[j].0) && !comps[i].1.entries[j].1.Dict?
    ensures SwitchComps(deviceId, comps).Raised?
  {
    if i == 0 {
      SwitchCapsRaiseOnNonDict(deviceId, comps[0].0, comps[0].1.entries, j);
    } else {
      var caps := Items(Or(comps[0].1, EmptyDict));
      if caps.Ok? && SwitchCaps(deviceId, comps[0].0, caps.value).Ok? {
        assert comps[1..][i - 1] == comps[i];
        SwitchCompsRaiseOnNonDict(deviceId, comps[1..], i - 1, j);
      }
    }
  }

  /** Where the document holds, for a power-mode capability, attributes that
      are not a dict (None included), the switch setup raises. */
  lemma SwitchSetupRaisesOnNonDictAttributes(snapshot: Value, deviceId: string, comp: string, cap: string)
    requires IsPowerMode(cap)
    requires match Follow(Or(snapshot, EmptyDict), ["components", comp, cap])
             case Some(attrs) => !attrs.Dict?
             case None => false
    ensures SwitchEntities(snapshot, deviceId).Raised?
  {
    var data := Or(snapshot, EmptyDict);
    var path := ["components", comp, cap];
    assert path[1..] == [comp, cap] && [comp, cap][1..] == [cap] && [cap][1..] == [];
    FollowFirst(data, path);
    var c := Find(data.entries, "components").value;
    FollowFirst(c, [comp, cap]);
    var caps := Find(c.entries, comp).value;
    FollowFirst(caps, [cap]);
    var attrs := Find(caps.entries, cap).value;
    assert data == snapshot && HasComponents(snapshot);
    assert Components(snapshot) == Ok(c) && Items(c) == Ok(c.entries);
    FindIn(c.entries, comp, caps);
    var i :| 0 <= i < |c.entries| && c.entries[i] == (comp, caps);
    FindIn(caps.entries, cap, attrs);
    var j :| 0 <= j < |caps.entries| && caps.entries[j] == (cap, attrs);
    SwitchCompsRaiseOnNonDict(deviceId, c.entries, i, j);
  }
}
