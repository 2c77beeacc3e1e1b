/**
 * The configuration flow: the user step that validates the token and device
 * id and creates the config entry, and the options step that stores the scan
 * interval and offers the current one as its default. Rendering the forms is
 * the host's business; each step yields the form it would show or the entry
 * it would create.
 */
module ConfigFlow {
  import opened Py

  const TokenKey: string := "token"
  const DeviceIdKey: string := "device_id"
  const ScanIntervalKey: string := "scan_interval"
  const DefaultScanInterval: int := 30

  const TokenMissing: string := "token_missing"
  const DeviceIdMissing: string := "device_id_missing"

  /** What a step hands the host: a form (its step id, the errors shown on it
      and the default offered for the scan interval), or a new entry. */
  datatype FlowResult =
    | ShowForm(stepId: string, errors: map<string, string>, scanIntervalDefault: Value)
    | CreateEntry(title: string, data: Value)

  /** `v.strip()`: only a string has it. */
  function StripValue(v: Value): (r: Result<string>)
    ensures r.Ok? <==> v.Str?
    ensures r.Ok? ==> r.value == Strip(v.s)
    ensures r.Raised? ==> r.exc == AttributeError
  {
    if v.Str? then Ok(Strip(v.s)) else Raised(AttributeError)
  }

  /** The entry data the user step stores. */
  function EntryData(token: string, deviceId: string, scanInterval: int): Value {
    Dict([(TokenKey, Str(token)), (DeviceIdKey, Str(deviceId)), (ScanIntervalKey, Int(scanInterval))])
  }

  /** An entry as the user step creates it: a trimmed, non-empty token and
      device id, an integer scan interval, and a title naming the device. */
  predicate ValidEntry(r: FlowResult) {
    r.CreateEntry? && r.data.Dict? && |r.data.entries| == 3 &&
    KeysOf(r.data.entries) == [TokenKey, DeviceIdKey, ScanIntervalKey] &&
    var token := r.data.entries[0].1;
    var deviceId := r.data.entries[1].1;
    token.Str? && token.s != [] && Stripped(token.s) &&
    deviceId.Str? && deviceId.s != [] && Stripped(deviceId.s) &&
    r.data.entries[2].1.Int? &&
    r.title == "ST device " + deviceId.s
  }

  /** The entry the user step creates from a validated token and device id. */
  function NewEntry(token: string, deviceId: string, scanInterval: int): (r: FlowResult)
    requires token != [] && Stripped(token) && deviceId != [] && Stripped(deviceId)
    ensures ValidEntry(r)
    ensures r.data.entries[0].1 == Str(token) && r.data.entries[1].1 == Str(deviceId)
    ensures r.data.entries[2].1 == Int(scanInterval)
  {
    CreateEntry("ST device " + deviceId, EntryData(token, deviceId, scanInterval))
  }

  /** The form the user step shows. */
  function UserForm(errors: map<string, string>): FlowResult {
    ShowForm("user", errors, Int(DefaultScanInterval))
  }

  /** `async_step_user`: `input` is None (`Null`) until the form is
      submitted, and the submitted mapping afterwards. */
  function UserStep(input: Value): (r: Result<FlowResult>)
    ensures input.Null? ==> r == Ok(UserForm(map[]))
    ensures r.Ok? && r.value.ShowForm? ==>
      r.value.stepId == "user" && r.value.scanIntervalDefault == Int(DefaultScanInterval) &&
      (r.value.errors == map[] <==> input.Null?) &&
      (!input.Null? ==> r.value.errors.Keys == {"base"} && r.value.errors["base"] in {TokenMissing, DeviceIdMissing})
    ensures r.Ok? && r.value.CreateEntry? ==> !input.Null? && ValidEntry(r.value)
  {
    if input.Null? then Ok(UserForm(map[]))
    else
      var rawToken :- Get(input, TokenKey, Str(""));
      var token :- StripValue(rawToken);
      // the first lookup succeeded, so the input is a dict and later ones do too
      var rawId := Get(input, DeviceIdKey, Str("")).value;
      var deviceId :- StripValue(rawId);
      if token == [] then
        var errors := map["base" := TokenMissing];
        assert "base" in errors;
        Ok(UserForm(errors))
      else if deviceId == [] then
        var errors := map["base" := DeviceIdMissing];
        assert "base" in errors;
        Ok(UserForm(errors))
      else
        var rawScan := Get(input, ScanIntervalKey, Int(DefaultScanInterval)).value;
        var scanInterval :- ToInt(rawScan);
        Ok(NewEntry(token, deviceId, scanInterval))
  }

  /** The user step as written: it fills an error map in place. */
  method StepUser(input: Value) returns (r: Result<FlowResult>)
    ensures r == UserStep(input)
  {
    var errors: map<string, string> := map[];
    if !input.Null? {
      var rawToken := Get(input, TokenKey, Str(""));
      if rawToken.Raised? {
        return Raised(rawToken.exc);
      }
      var token := StripValue(rawToken.value);
      if token.Raised? {
        return Raised(token.exc);
      }
      // the first lookup succeeded, so the input is a dict
      var rawId := Get(input, DeviceIdKey, Str("")).value;
      var deviceId := StripValue(rawId);
      if deviceId.Raised? {
        return Raised(deviceId.exc);
      }
      if token.value == [] {
        errors := errors["base" := TokenMissing];
      } else if deviceId.value == [] {
        errors := errors["base" := DeviceIdMissing];
      } else {
        var rawScan := Get(input, ScanIntervalKey, Int(DefaultScanInterval)).value;
        var scanInterval := ToInt(rawScan);
        if scanInterval.Raised? {
          return Raised(scanInterval.exc);
        }
        return Ok(CreateEntry("ST device " + deviceId.value, EntryData(token.value, deviceId.value, scanInterval.value)));
      }
    }
    r := Ok(UserForm(errors));
  }

  /** The validation order: a blank token is reported whatever the device id
      is; a blank device id is reported only with a non-blank token; with both
      present the entry stores them trimmed, with the scan interval (30 when
      absent) converted by `int()`. */
  lemma UserStepValidation(input: Value, token: string, deviceId: string)
    requires Get(input, TokenKey, Str("")) == Ok(Str(token))
    requires Get(input, DeviceIdKey, Str("")) == Ok(Str(deviceId))
    ensures Strip(token) == [] ==> UserStep(input) == Ok(UserForm(map["base" := TokenMissing]))
    ensures Strip(token) != [] && Strip(deviceId) == [] ==>
      UserStep(input) == Ok(UserForm(map["base" := DeviceIdMissing]))
    ensures Strip(token) != [] && Strip(deviceId) != [] ==>
      var scan := ToInt(Get(input, ScanIntervalKey, Int(DefaultScanInterval)).value);
      (UserStep(input).Ok? <==> scan.Ok?) &&
      (scan.Ok? ==>
         UserStep(input) ==
           Ok(CreateEntry("ST device " + Strip(deviceId), EntryData(Strip(token), Strip(deviceId), scan.value))))
  {
  }

  /** Blank or missing fields: an input without a token is reported as a
      missing token, even when the device id is missing too. */
  lemma EmptyInputReportsToken()
    ensures UserStep(EmptyDict) == Ok(UserForm(map["base" := TokenMissing]))
  {
    UserStepValidation(EmptyDict, "", "");
    StripEmptyIffBlank("");
  }

  /** Submitting a created entry's data again creates the same entry: the
      stored values are already trimmed and the interval already an int. */
  lemma StoredEntryRevalidates(input: Value, title: string, data: Value)
    requires UserStep(input) == Ok(CreateEntry(title, data))
    ensures UserStep(data) == Ok(CreateEntry(title, data))
  {
    var es := data.entries;
    var token, deviceId, scanInterval := es[0].1.s, es[1].1.s, es[2].1.i;
    assert data == EntryData(token, deviceId, scanInterval);
    StrippedIsFixedPoint(token);
    StrippedIsFixedPoint(deviceId);
    EntryDataLookups(token, deviceId, scanInterval);
    UserStepValidation(data, token, deviceId);
  }

  /** Looking the three fields up in the stored data finds them. */
  lemma EntryDataLookups(token: string, deviceId: string, scanInterval: int)
    ensures var data := EntryData(token, deviceId, scanInterval);
      Get(data, TokenKey, Str("")) == Ok(Str(token)) &&
      Get(data, DeviceIdKey, Str("")) == Ok(Str(deviceId)) &&
      Get(data, ScanIntervalKey, Int(DefaultScanInterval)) == Ok(Int(scanInterval))
  {
    var es := EntryData(token, deviceId, scanInterval).entries;
    assert Find(es, DeviceIdKey) == Find(es[1..], DeviceIdKey);
    assert Find(es, ScanIntervalKey) == Find(es[1..], ScanIntervalKey) == Find(es[2..], ScanIntervalKey);
  }

  // ---------------------------------------------------------------- options

  /** A config entry as the host stores it: its data and its options. */
  datatype ConfigEntry = ConfigEntry(data: seq<(string, Value)>, options: seq<(string, Value)>)

  /** `options.get(SCAN, data.get(SCAN, 30))`: the scan interval the options
      form offers. */
  function ScanIntervalDefault(entry: ConfigEntry): (v: Value)
    ensures ScanIntervalKey in KeysOf(entry.options) ==> Some(v) == Find(entry.options, ScanIntervalKey)
    ensures ScanIntervalKey !in KeysOf(entry.options) && ScanIntervalKey in KeysOf(entry.data) ==>
      Some(v) == Find(entry.data, ScanIntervalKey)
    ensures ScanIntervalKey !in KeysOf(entry.options) && ScanIntervalKey !in KeysOf(entry.data) ==>
      v == Int(DefaultScanInterval)
  {
    var fromData := Get(Dict(entry.data), ScanIntervalKey, Int(DefaultScanInterval)).value;
    Get(Dict(entry.options), ScanIntervalKey, fromData).value
  }

  /** `async_step_init` of the options flow: with input, an entry holding
      only the scan interval (30 when absent) as an int; without, the form
      offering the current interval. */
  function OptionsStep(entry: ConfigEntry, input: Value): (r: Result<FlowResult>)
    ensures input.Null? ==> r == Ok(ShowForm("init", map[], ScanIntervalDefault(entry)))
    ensures r.Ok? && r.value.CreateEntry? ==>
      !input.Null? && r.value.title == "" && r.value.data.Dict? &&
      KeysOf(r.value.data.entries) == [ScanIntervalKey] && r.value.data.entries[0].1.Int?
    ensures !input.Null? ==>
      (r.Ok? <==> input.Dict? && ToInt(Get(input, ScanIntervalKey, Int(DefaultScanInterval)).value).Ok?)
    ensures input.Dict? && r.Ok? ==>
      r.value.CreateEntry? && r.value.data.entries[0].1 == Int(ToInt(Get(input, ScanIntervalKey, Int(DefaultScanInterval)).value).value)
  {
    if input.Null? then Ok(ShowForm("init", map[], ScanIntervalDefault(entry)))
    else
      var raw :- Get(input, ScanIntervalKey, Int(DefaultScanInterval));
      var n :- ToInt(raw);
      Ok(CreateEntry("", Dict([(ScanIntervalKey, Int(n))])))
  }

  /** Once the options step has stored an interval, the options form offers
      that interval, and submitting it unchanged stores the same options. */
  lemma OptionsRoundTrip(entry: ConfigEntry, input: Value, options: Value)
    requires OptionsStep(entry, input) == Ok(CreateEntry("", options))
    ensures var updated := ConfigEntry(entry.data, options.entries);
      OptionsStep(updated, Null) == Ok(ShowForm("init", map[], options.entries[0].1)) &&
      OptionsStep(updated, Dict([(ScanIntervalKey, ScanIntervalDefault(updated))])) == Ok(CreateEntry("", options))
  {
  }

  /** Before any option is stored, the options form offers the interval the
      user step stored in the entry data. */
  lemma OptionsOfferEntryInterval(input: Value, title: string, data: Value)
    requires UserStep(input) == Ok(CreateEntry(title, data))
    ensures ScanIntervalDefault(ConfigEntry(data.entries, [])) == data.entries[2].1
    ensures data.entries[2].1.Int?
  {
    var es := data.entries;
    assert Find(es, ScanIntervalKey) == Find(es[1..], ScanIntervalKey) == Find(es[2..], ScanIntervalKey);
  }
}
