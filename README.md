# st_components: a Dafny model of the snapshot-interpretation layer

`st_components` is a Home Assistant custom integration. It polls one
SmartThings device's status document, turns it into entities and forwards
commands back to the device. The status document is nested:
`components → capability → attribute → payload`, and a payload carries a
`"value"`. This project models the logic that reads that document and decides
things:

- which (component, capability, attribute) coordinates become temperature
  sensors, generic numeric sensors, binary sensors, power-mode switches and
  setpoint numbers, and what each entity's name and unique id are;
- how an entity reads its current value through the nested `or {}` lookup,
  how "is on" is coerced from a value, and the setpoint range and its
  defaults;
- the Bearer-token header, the status and command URLs and the one-command
  batch body the API client sends;
- the user and options steps of the configuration flow: trimming,
  validation order and the scan-interval defaults;
- the coordinator's interval floor, its empty-document fallback, its
  error wrapping and its command forwarding.

## Layout

| file | module | models |
|---|---|---|
| `py.dfy` | `Py` | The Python values the component handles: a JSON-like `Value`, exceptions as `Result.Raised`, and `dict.get`, `items()`, `keys()`, `in`, `x or d`, `str.lower`, `str.strip`, `float()` and `int()` |
| `api.py` → `api.dfy` | `Api` | Token normalisation, URLs, command body; `ApiClient` holds the headers its requests carry |
| `entity.py` → `entity.dfy` | `Entities` | The entity record, `_current_attr`, `extra_state_attributes`, `device_info`, `_send`, and registration when the list is non-empty |
| `coordinator.py` → `coordinator.dfy` | `Coordinators` | `Coordinator` with the device id, the client and the update interval |
| `sensor.py` → `sensor.dfy` | `Sensors` | `_iter_components` and the two setup loops |
| `binary_sensor.py` → `binary_sensor.dfy` | `BinarySensors` | `is_on`, and the contact and boolean-attribute setup loops |
| `switch.py` → `switch.dfy` | `Switches` | `is_on`, turn on/off, and the powerCool/powerFreeze setup loops |
| `number.py` → `number.dfy` | `Numbers` | `_get_range`, the min/max bounds, the set command and the setup loop |
| `config_flow.py` → `config_flow.dfy` | `ConfigFlow` | The user step (a method filling an error map) and the options step |

### How the model is built

**Dicts.** A Python dict is `Value.Dict(entries)`, an ordered list of
entries. Insertion order matters: traversal order decides the order of the
entity list, and the switch tracks the first key. Lookup finds the first
matching key. Some lemmas compare a traversal with a later re-lookup of the
same key. Only those lemmas require distinct keys (`WellFormed`), as a
decoded JSON object has.

**Exceptions.** Every expression that can raise in Python returns a
`Result`. For example, `.get` on a truthy non-dict raises `AttributeError`,
and `in None` raises `TypeError`. A setup that raises registers nothing
(`Setup.SetupFailed`).

**Setup loops.** Each `async_setup_entry` that appends in loops is a method
proved against a specification function that builds the same list. Each
nested loop is its own helper method, so that every method's proof stays
small. Membership lemmas then characterise each specification function against an
independent reference: which paths in the document reach a payload of the
right shape.

**Coordinator.** `coordinator.py` fetches the status, replaces a falsy
document with `{}`, wraps any failure in `UpdateFailed`, and floors the
interval at 10 s. The model has exactly these behaviours: the coordinator
does no rate limiting, caching or unit conversion.

## Model

| member | source | states |
|---|---|---|
| Py.Or | st_components/entity.py:37-41 | `x or d` is `x` when `x` is truthy and `d` otherwise |
| Py.Get | st_components/entity.py:38-42 | `d.get(k, default)` raises `AttributeError` exactly when the receiver is not a dict |
| Py.Items | st_components/sensor.py:22-24 | `items()` succeeds exactly on dicts and yields their entries in order |
| Py.Keys | st_components/switch.py:36 | `keys()` succeeds exactly on dicts |
| Py.Contains | st_components/binary_sensor.py:36 | `k in x` raises exactly on None, bools and numbers |
| Py.Subscript | st_components/binary_sensor.py:36 | `x[k]` succeeds exactly when `x` is a dict holding `k` |
| Py.WalkMeaning | st_components/entity.py:37-42 | A chain of `(x or {}).get(k)` steps raises exactly when some level on the path is a truthy non-dict; otherwise it gives the value at the end of the path, or None when a level is missing |
| Py.WalkFromNull | st_components/entity.py:37 | The same chain started from None gives None, whatever the path |
| Py.Lower | st_components/binary_sensor.py:25 | `str.lower` as modelled: each ASCII capital becomes its small letter and every other character is kept, so the length is kept (Python itself can lengthen a string; see "Left out") |
| Py.LowerIdempotent | st_components/binary_sensor.py:25 | Lower-casing an already lower-cased string changes nothing |
| Py.Strip | st_components/api.py:12 | `str.strip` removes exactly the leading and trailing whitespace: what it drops is whitespace, and the result is a contiguous slice that neither starts nor ends with whitespace |
| Py.StripIdempotent | st_components/config_flow.py:15-16 | Stripping twice is the same as stripping once |
| Py.StripEmptyIffBlank | st_components/config_flow.py:17-19 | A string strips to empty exactly when it is all whitespace |
| Py.ToFloat | st_components/number.py:26 | `float(x)`: a bool converts to 1.0 or 0.0, an int to the same number, a float to itself, and a decimal string to the value it spells, skipping surrounding whitespace other than the separators U+001C–U+001F; any other string raises `ValueError`; anything else raises `TypeError` |
| Py.ParseDecimalOfInt | st_components/number.py:26 | `float()` of an integer's decimal spelling, signed, is that integer |
| Py.ToInt | st_components/config_flow.py:26 | `int(x)` gives 1 or 0 for a bool, is the identity on ints, truncates a float toward zero, and gives the value an integer string spells, skipping surrounding whitespace other than the separators U+001C–U+001F; any other string raises `ValueError`, a non-number `TypeError` |
| Py.ToIntOfIntString | st_components/config_flow.py:26 | `int(str(i)) == i` for every integer `i` |
| Py.ToFloatOfIntString | st_components/number.py:26 | `float(str(i)) == i` for every integer `i` |
| Py.ToFloatOfIntegralString | st_components/number.py:26 | Every string `int()` accepts, `float()` accepts too, and gives the same value |
| Py.ParseIntOfInt | st_components/config_flow.py:26 | `int()` of an integer's decimal spelling is that integer |
| Py.SeparatorAfterNumeral | st_components/config_flow.py:26 | A separator U+001C–U+001F after a numeral is removed by `strip()`, yet makes both `int()` and `float()` raise `ValueError` |
| Py.SkippedPadding | st_components/config_flow.py:26 | One whitespace character other than a separator on each side of a stripped string changes neither `int()` nor `float()` of it |
| Py.SameNumeral | st_components/number.py:26 | Two strings that strip to the same text, both padded only with whitespace the conversions skip, convert to the same result |
| Api.Authorization | st_components/api.py:12-15 | The header value starts with "bearer " case-insensitively and ends with the stripped token; it is the stripped token unchanged exactly when that token already starts with "bearer " in any case |
| Api.AuthorizationIdempotent | st_components/api.py:12-14 | For a token that is non-empty after stripping, normalising the header again changes nothing |
| Api.AuthorizationOfBlankToken | st_components/api.py:12-14 | An all-whitespace token gives "Bearer ", which is not a fixed point: normalising it again gives "Bearer Bearer" |
| Api.AuthorizationOfBareScheme | st_components/api.py:12-14 | "Bearer " strips to "Bearer", which lacks the trailing space and so gets a second prefix |
| Api.UrlsIdentifyDevice | st_components/api.py:6-24 | The status and command URLs each determine the device id, and no status URL equals a command URL |
| Api.CommandBodyRoundTrip | st_components/api.py:25-32 | The batch body is `{"commands": [...]}` with no other key, holding exactly one record whose keys are exactly component, capability, command and arguments, in that order, with the given values and `arguments or []` |
| Api.ParsedBodyIsCommandBody | st_components/api.py:25-32 | Conversely, any body that reads back as a command (with the `or []` default already applied) is exactly that command's body, so the reading is one-to-one |
| Api.ApiClient.constructor | st_components/api.py:9-15 | The client stores exactly one header, Authorization, holding the normalised token |
| Api.ApiClient.StatusRequest | st_components/api.py:17-19 | The status request is a GET with the stored headers and no body, at a URL that identifies the device |
| Api.ApiClient.CommandRequest | st_components/api.py:23-33 | The command request is a POST with the stored headers, at the device's commands URL, whose body reads back as the command with `arguments or []` |
| Entities.Register | st_components/sensor.py:59-60 | Entities are registered exactly when the list was built and is non-empty; an empty list registers nothing; a raising setup registers nothing |
| Entities.Components | st_components/sensor.py:21 | `(data or {}).get("components") or {}` raises exactly on truthy non-dict data, returns a truthy "components" value unchanged, and is otherwise `{}` |
| Entities.CapabilityHasAttribute | st_components/binary_sensor.py:36 | `cap in caps and attr in caps[cap]` holds exactly when the capability is present in a dict and its value contains the attribute; it raises only `TypeError` |
| Entities.CurrentAttrMeaning | st_components/entity.py:36-42 | `_current_attr` is `components[comp][cap][attr]["value"]` when every level is present; it is None when a level is missing, None or empty; it raises only when a level is a non-empty non-dict |
| Entities.ExtraStateAttributes | st_components/entity.py:21-26 | The extra attributes have exactly the keys st_component, st_capability and st_attribute, mapped to the entity's component, capability and attribute |
| Entities.ExtraStateAttributesIdentify | st_components/entity.py:21-26 | Two entities have equal extra attributes exactly when they track the same coordinate |
| Entities.EntityDeviceInfo | st_components/entity.py:29-34 | The device info carries the single identifier (st_components, device id), the name "SmartThings Device" and the manufacturer "SmartThings" |
| Entities.DeviceInfoIdentifiesDevice | st_components/entity.py:29-34 | Two entities' device infos are equal exactly when their coordinators' device ids are equal |
| Entities.Send | st_components/entity.py:44-45 | A command goes to the entity's own component; None or empty arguments become `[]`, and other arguments pass through unchanged |
| Coordinators.IntervalSeconds | st_components/coordinator.py:19 | The interval is at least 10 and at least the configured one, and equals the configured one exactly when that is at least 10 |
| Coordinators.Coordinator.constructor | st_components/coordinator.py:14-22 | The coordinator stores the device id, a fresh client for the token, and the floored interval |
| Coordinators.Coordinator.UpdateData | st_components/coordinator.py:24-29 | An update requests the stored device's status; a failed fetch becomes `UpdateFailed` with the same message; a falsy document becomes `{}`; any other document is passed on unchanged |
| Coordinators.Coordinator.SendCommand | st_components/coordinator.py:35-36 | A command goes to the stored device, with a body that is the same whether or not `arguments or []` was applied first |
| Sensors.IterComponentsOfNothing | st_components/sensor.py:21 | No data, or a missing or empty "components", yields nothing |
| Sensors.YieldAttrsExactly | st_components/sensor.py:24-26 | The innermost loop yields a coordinate exactly when its payload is a dict with a "value" |
| Sensors.YieldCapsExactly | st_components/sensor.py:23-26 | Over one component, a coordinate is yielded exactly when its capability and attribute lead through dicts to a payload with a "value" |
| Sensors.YieldCompsExactly | st_components/sensor.py:22-26 | Over all components, a coordinate is yielded exactly when the path to its payload runs through dicts to a payload with a "value" |
| Sensors.IterComponentsExactly | st_components/sensor.py:20-26 | `_iter_components` yields exactly the coordinates whose payload is a dict containing "value"; empty or None capability and attribute maps contribute nothing |
| Sensors.AddTemperatureSensors | st_components/sensor.py:39-46 | The first loop appends the temperature sensors of the yielded coordinates, in traversal order |
| Sensors.AddGenericSensors | st_components/sensor.py:49-57 | The second loop appends the generic sensors of the yielded coordinates to what is already built, in traversal order, and raises where the re-lookup raises |
| Sensors.SetupSensors | st_components/sensor.py:33-60 | Sensor setup registers the temperature sensors followed by the generic sensors, and registers only a non-empty list |
| Sensors.TemperatureSensorsExactly | st_components/sensor.py:39-46 | A temperature sensor, named "ST {comp} temperature" with class temperature and unit Celsius, is built exactly for each yielded temperatureMeasurement.temperature coordinate |
| Sensors.GenericSensorsExactly | st_components/sensor.py:49-57 | A generic sensor "ST {comp} {cap}.{attr}" is built exactly for each yielded coordinate that is neither the skip pair nor the temperature pair and whose value is an int or a float, bools included |
| Sensors.PayloadValueOfReported | st_components/sensor.py:52-53 | For a yielded coordinate, the second loop's re-lookup and the entity's `_current_attr` both find the payload's "value" |
| Sensors.SensorEntitiesExactly | st_components/sensor.py:38-57 | The sensor list holds exactly a temperature sensor per temperature coordinate that reports a value, and a generic sensor per other qualifying coordinate |
| Sensors.SensorEntitiesShape | st_components/sensor.py:42-56 | Every uid is "{device}-{comp}-{cap}-{attr}"; every generic sensor reads a number; no coordinate has both a temperature and a generic sensor; every temperature sensor precedes every generic sensor |
| Sensors.GenericSensorsSucceed | st_components/sensor.py:52-53 | The second loop raises only where some coordinate's re-lookup raises |
| Sensors.SensorSetupFailsOnlyInTraversal | st_components/sensor.py:39-52 | On a document with distinct keys, sensor setup raises exactly when the traversal raises: the second loop's re-lookup never raises on its own |
| BinarySensors.IsOn | st_components/binary_sensor.py:20-26 | `is_on` raises exactly when reading the value raises; otherwise a bool is returned unchanged, a string is on exactly when its lower-case form is on, open, detected or true, and anything else is its truthiness |
| BinarySensors.BinaryIsOnOfStrings | st_components/binary_sensor.py:24-25 | For every string: it reads as on exactly when its lower-case form is on, open, detected or true; strings with the same lower-case form read alike, so case never matters; only lengths 2, 4 and 8 can be on; "closed", "false" and "off" are off |
| BinarySensors.AddBooleanAttributes | st_components/binary_sensor.py:43-49 | The attribute loop appends one boolean sensor per attribute whose payload is a dict with a bool "value", in order |
| BinarySensors.AddBooleanCaps | st_components/binary_sensor.py:42-49 | The capability loop appends, capability by capability, the boolean sensors of each, and raises when a capability's attributes are a non-empty non-dict |
| BinarySensors.AddComponentBinarySensors | st_components/binary_sensor.py:36-49 | One component's pass appends its contact sensor, then its boolean sensors |
| BinarySensors.SetupBinarySensors | st_components/binary_sensor.py:28-52 | Binary-sensor setup registers the list the component loop builds, and registers only a non-empty list |
| BinarySensors.BooleanAttrsExactly | st_components/binary_sensor.py:43-49 | Over one capability, a boolean sensor is built exactly for each attribute with a bool "value" |
| BinarySensors.BooleanCapsExactly | st_components/binary_sensor.py:42-49 | Over one component, a boolean sensor is built exactly for each capability.attribute whose payload has a bool "value" |
| BinarySensors.ComponentBinarySensorsExactly | st_components/binary_sensor.py:36-49 | One component gives a DOOR contact sensor exactly when contactSensor holds contact, whether or not that payload has a value, plus its boolean sensors |
| BinarySensors.BinaryCompsExactly | st_components/binary_sensor.py:34-49 | Over all components, the list holds exactly the contact sensors and the boolean sensors those rules give |
| BinarySensors.BinarySensorEntitiesExactly | st_components/binary_sensor.py:32-49 | The binary-sensor list holds exactly a contact sensor per component whose capabilities hold contactSensor.contact, and a boolean sensor per coordinate whose payload has a bool "value" |
| BinarySensors.ContactBoolGetsTwoSensors | st_components/binary_sensor.py:38-48 | A bool contactSensor.contact gives two different entities with the same uid |
| BinarySensors.BinaryCompsRaiseOnScalarCaps | st_components/binary_sensor.py:36 | A component whose capabilities are None or a number makes the component loop raise |
| BinarySensors.BinarySetupRaisesOnScalarCaps | st_components/binary_sensor.py:36 | Such a document makes binary-sensor setup raise; sensor setup on the same document, given distinct keys, raises only if its own traversal does |
| Switches.SwitchIsOnOf | st_components/switch.py:12-19 | `is_on` raises exactly when reading the value raises; otherwise a bool is unchanged, a string is on exactly when its lower-case form is on, active or true, and anything else is its truthiness |
| Switches.SwitchAndBinarySensorReadings | st_components/switch.py:17-18 | A switch and a binary sensor read a value differently exactly when it is a string whose lower-case form is open, detected or active |
| Switches.TurnOn | st_components/switch.py:21-22 | Turning on sends "activate" on the entity's own component and capability, with empty arguments |
| Switches.TurnOff | st_components/switch.py:24-25 | Turning off sends "deactivate" on the entity's own component and capability, with empty arguments |
| Switches.TurnOnOffDiffer | st_components/switch.py:21-25 | On and off go to the same component and capability with different bodies |
| Switches.SwitchAttribute | st_components/switch.py:36 | The tracked attribute is the first key of the attribute map, or "state" when the map is empty; a non-dict raises `AttributeError` |
| Switches.AddComponentSwitches | st_components/switch.py:33-39 | The capability loop appends one switch per powerCool or powerFreeze capability, in order |
| Switches.SetupSwitches | st_components/switch.py:27-42 | Switch setup registers the list the component loop builds, and registers only a non-empty list |
| Switches.SwitchCapsExactly | st_components/switch.py:33-39 | Over one component, a switch "ST {comp} {cap}" is built exactly for each capability ending in powerCool or powerFreeze, tracking that map's first key or "state" |
| Switches.SwitchCompsExactly | st_components/switch.py:32-39 | Over all components, the switches are exactly those the capability rule gives |
| Switches.SwitchEntitiesExactly | st_components/switch.py:30-39 | The switch list contains a switch exactly for each power-mode capability in the document, reading its first attribute |
| Switches.SwitchCapsOnePerCapability | st_components/switch.py:34-39 | Over one component's capabilities, no capability gets two switches |
| Switches.SwitchCompsOnePerCapability | st_components/switch.py:32-39 | Over all components, no (component, capability) pair gets two switches |
| Switches.SwitchEntitiesOnePerCapability | st_components/switch.py:30-39 | The switch list holds at most one switch per component and capability, so with SwitchEntitiesExactly exactly one per power-mode capability |
| Switches.SwitchCapsRaiseOnNonDict | st_components/switch.py:36 | A power-mode capability whose attributes are not a dict makes the capability loop raise |
| Switches.SwitchCompsRaiseOnNonDict | st_components/switch.py:36 | Such a capability in any component makes the component loop raise |
| Switches.SwitchSetupRaisesOnNonDictAttributes | st_components/switch.py:36 | Such a capability anywhere in the document makes switch setup raise |
| Numbers.GetRangeMeaning | st_components/number.py:33-40 | `_get_range` returns a list exactly when `components[comp][thermostatCoolingSetpoint][coolingSetpointRange]["value"]` is a list of length 2 |
| Numbers.GetRangeFound | st_components/number.py:33-39 | A range that `_get_range` returns is the stored two-element list |
| Numbers.GetRangeOfStored | st_components/number.py:33-39 | A stored two-element range list is what `_get_range` returns |
| Numbers.NativeMin | st_components/number.py:23-26 | The minimum is `float` of the first range element, 1.0 without a valid range, and raises where the range lookup raises |
| Numbers.NativeMax | st_components/number.py:28-31 | The maximum is `float` of the second range element, 30.0 without a valid range, and raises where the range lookup raises |
| Numbers.DefaultBounds | st_components/number.py:26-31 | Without a range the bounds are 1.0 and 30.0, in that order |
| Numbers.RangeStricterThanValue | st_components/number.py:34-35 | An explicit None for "components" or for the capability makes the range lookup raise, while `_current_attr` reads None |
| Numbers.SetNativeValue | st_components/number.py:42-43 | Setting a value sends setCoolingSetpoint on thermostatCoolingSetpoint with the single argument `[value]` |
| Numbers.SetupNumbers | st_components/number.py:45-57 | Number setup registers the list the component loop builds, and registers only a non-empty list |
| Numbers.SetpointCompsExactly | st_components/number.py:50-54 | Over all components, a setpoint entity "ST {comp} setpoint" (unit °C, step 1.0) is built exactly for each component whose capabilities hold thermostatCoolingSetpoint.coolingSetpoint |
| Numbers.NumberEntitiesExactly | st_components/number.py:48-54 | The number list contains a setpoint entity exactly for each such component |
| Numbers.SetpointCompsOnePerComponent | st_components/number.py:50-54 | Over all components, no component gets two setpoint entities |
| Numbers.NumberEntitiesOnePerComponent | st_components/number.py:48-54 | The number list holds at most one entity per component, so with NumberEntitiesExactly exactly one per qualifying component |
| Numbers.SetpointIsNotASensor | st_components/sensor.py:16-18 | The setpoint coordinate never becomes a sensor |
| ConfigFlow.StripValue | st_components/config_flow.py:15-16 | `.strip()` succeeds exactly on strings and raises `AttributeError` otherwise |
| ConfigFlow.UserStep | st_components/config_flow.py:12-35 | Without input (None) the form has no errors; a shown form after input carries the single error token_missing or device_id_missing; a created entry holds exactly the trimmed non-empty token and device id and an int interval, titled "ST device {device_id}" |
| ConfigFlow.NewEntry | st_components/config_flow.py:23-28 | The created entry stores the token, the device id and the interval under their keys, in that order, titled after the device |
| ConfigFlow.StepUser | st_components/config_flow.py:12-35 | The user step, filling its error map in place, gives the same result as the validation rules |
| ConfigFlow.UserStepValidation | st_components/config_flow.py:15-28 | A blank token is reported whatever the device id; a blank device id is reported only with a token; otherwise the entry stores both trimmed, with `int(scan_interval)` defaulting to 30 |
| ConfigFlow.EmptyInputReportsToken | st_components/config_flow.py:15-18 | An input with neither field reports token_missing |
| ConfigFlow.StoredEntryRevalidates | st_components/config_flow.py:15-28 | Submitting a created entry's data again creates the same entry |
| ConfigFlow.ScanIntervalDefault | st_components/config_flow.py:53 | The options form's default is the stored option when there is one, else the entry data's interval, else 30 |
| ConfigFlow.OptionsStep | st_components/config_flow.py:46-55 | Without input (None) the form offers that default; with input the step succeeds exactly when the input is a dict whose scan_interval (30 when absent) converts with `int()`, and the options then hold only scan_interval, set to that int |
| ConfigFlow.OptionsRoundTrip | st_components/config_flow.py:49-53 | Once an interval is stored, the options form offers it, and resubmitting it stores the same options |
| ConfigFlow.OptionsOfferEntryInterval | st_components/config_flow.py:26-53 | Before any option is stored, the options form offers the int interval the user step stored |

## Left out

- HTTP is not modelled: the aiohttp session, `raise_for_status`, JSON decoding and the 20 s timeout. `ApiClient` returns the request it would send, and the coordinator takes the fetch outcome (a document or an error message) as a parameter.
- The Home Assistant framework is not modelled: `DataUpdateCoordinator` scheduling, `CoordinatorEntity`, `async_add_entities`, `async_show_form`/`async_create_entry` and the voluptuous schemas. A step yields the form or entry it would hand over, and a setup yields the list it would register.
- Async/await is left out: nothing depends on interleaving.
- `st_components/__init__.py` is not part of this model. Its interval precedence and floor repeat what the options step and the coordinator show.
- `st_components/const.py` is not part of this model; its constants are written inline.
- Coordinators.Coordinator.constructor: takes the scan interval as an int, so `int(scan_interval)` raising on a non-number is not modelled there; `Py.ToInt` models that conversion where the config flow applies it.
- Coordinators.Coordinator.DeviceId: returns the stored id and has no contract of its own; the constructor's contract states that the id is the one given.
- Py.ToFloat: floats are exact reals, not IEEE doubles.
- Py.ToFloat: exponents, "inf", "nan" and underscores in strings are treated as unparsable (`ValueError`), and so are non-ASCII Unicode decimal digits, which Python's `float()` accepts.
- Py.ToInt: underscores in strings are treated as unparsable, and `OverflowError` on an infinite float is not modelled. Only the ASCII digits 0-9 are digits: Python's `int()` also accepts other Unicode decimal digits (`int("٣") == 3`), which the model rejects with `ValueError`.
- Py.Lower: lowers ASCII letters only. Python also lowers non-ASCII letters, and a few of them to an ASCII letter or to more than one character: the Kelvin sign U+212A lowers to "k", and U+0130 (capital I with dot above) lowers to "i" followed by the combining dot U+0307, which makes the string longer. Every comparison Lower feeds is against an ASCII word ("on", "open", "detected", "true", "active"), or tested for the prefix "bearer " in `Api.Authorization`. A string that differs from such a word only by Kelvin signs would need a "k", which neither these words nor "bearer " has. A string with U+0130 lowers to one that still holds the non-ASCII U+0307, so it equals none of the words. A U+0130 among the first seven characters spoils the "bearer " prefix in Python and in the model alike, and one further on does not affect the prefix in either. So each comparison comes out as it does in Python, but the model's `|Lower(s)| == |s|` is not a property of Python's `str.lower`.
- Dicts with duplicate keys are not modelled by the membership lemmas, which require `WellFormed`: decoded JSON objects have distinct keys.
- Tuples are not modelled: a decoded JSON document holds lists only, so the tuple case of `_get_range` never arises.
- The nested setup loops are split into one helper method per loop level. The entity list is a `seq` threaded through them, not a shared mutable list.
- The entity constructor has no member of its own: an `Entities.Entity` value holds the stored component, capability, attribute, name and unique id unchanged.
