/**
 * The SmartThings REST client: the Authorization header it builds once from
 * the configured token, and the two requests it issues (device status and a
 * single-command batch). The HTTP exchange itself is not modelled: each
 * operation yields the request it would send.
 */
module Api {
  import opened Py

  const Base: string := "https://api.smartthings.com/v1"
  const DevicesPrefix: string := Base + "/devices/"
  const StatusSuffix: string := "/status"
  const CommandsSuffix: string := "/commands"

  datatype Verb = HttpGet | HttpPost

  /** An HTTP request as the client would issue it. */
  datatype Request = Request(verb: Verb, url: string, headers: map<string, string>, body: Option<Value>)

  /** One device command: what the batch body carries. */
  datatype Command = Command(component: string, capability: string, command: string, arguments: Value)

  // ------------------------------------------------------------ authorization

  /** The Authorization header value for a configured token: the stripped
      token, prefixed with "Bearer " unless it already starts with "bearer "
      in any letter case. */
  function Authorization(token: string): (r: string)
    ensures StartsWith(Lower(r), "bearer ")
    ensures EndsWith(r, Strip(token))
    ensures r == Strip(token) <==> StartsWith(Lower(Strip(token)), "bearer ")
  {
    var tok := Strip(token);
    if StartsWith(Lower(tok), "bearer ") then
      assert tok[|tok| - |tok|..] == tok;
      tok
    else
      Prefixed(tok);
      "Bearer " + tok
  }

  /** The prefixed header carries the scheme and ends with the token. */
  lemma Prefixed(t: string)
    ensures StartsWith(Lower("Bearer " + t), "bearer ")
    ensures EndsWith("Bearer " + t, t) && "Bearer " + t != t
  {
    var r := "Bearer " + t;
    assert Lower(r)[..7] == "bearer ";
    assert r[|r| - |t|..] == t;
  }

  /** Prefixing a stripped, non-empty token keeps it stripped. */
  lemma PrefixedStaysStripped(t: string)
    requires t != [] && Stripped(t)
    ensures Stripped("Bearer " + t)
  {
    var r := "Bearer " + t;
    assert r[0] == 'B' && r[|r| - 1] == t[|t| - 1];
  }

  /** Normalising an already normalised header changes nothing, as long as the
      token has some non-whitespace content. */
  lemma AuthorizationIdempotent(token: string)
    requires Strip(token) != []
    ensures Authorization(Authorization(token)) == Authorization(token)
  {
    var r := Authorization(token);
    if r == Strip(token) {
      StrippedIsFixedPoint(r);
    } else {
      PrefixedStaysStripped(Strip(token));
      StrippedIsFixedPoint(r);
    }
  }

  /** A token that does not carry the scheme gets it prepended. */
  lemma AuthorizationPrefixes(token: string)
    requires !StartsWith(Lower(Strip(token)), "bearer ")
    ensures Authorization(token) == "Bearer " + Strip(token)
  {
  }

  /** A word shorter than "bearer " cannot start with it. */
  lemma ShortWordLacksScheme(w: string)
    requires |w| < 7
    ensures !StartsWith(Lower(w), "bearer ")
  {
  }

  /** "Bearer " loses its trailing space to `strip()`. */
  lemma StripBareScheme()
    ensures Strip("Bearer ") == "Bearer"
  {
    var w := "Bearer";
    assert w[0] == 'B' && w[5] == 'r';
    StripOneTrailingSpace(w, ' ');
    assert w + [' '] == "Bearer ";
  }

  /** Stripping "Bearer " leaves the bare word, which lacks the separating
      space, so it is prefixed once more. */
  lemma AuthorizationOfBareScheme()
    ensures Authorization("Bearer ") == "Bearer Bearer"
  {
    StripBareScheme();
    ShortWordLacksScheme("Bearer");
    AuthorizationPrefixes("Bearer ");
    SchemeTwice();
  }

  /** The header that the bare scheme normalises to. */
  lemma SchemeTwice()
    ensures "Bearer " + "Bearer" == "Bearer Bearer"
  {
  }

  /** An all-whitespace token becomes the bare scheme "Bearer ", which is not a
      fixed point: normalising it again yields "Bearer Bearer". */
  lemma AuthorizationOfBlankToken(token: string)
    requires forall i :: 0 <= i < |token| ==> IsSpace(token[i])
    ensures Authorization(token) == "Bearer "
    ensures Authorization(Authorization(token)) == "Bearer Bearer"
  {
    StripEmptyIffBlank(token);
    assert |Lower(Strip(token))| == 0;
    AuthorizationOfBareScheme();
  }

  // --------------------------------------------------------------------- URLs

  function StatusUrl(deviceId: string): string {
    DevicesPrefix + deviceId + StatusSuffix
  }

  function CommandsUrl(deviceId: string): string {
    DevicesPrefix + deviceId + CommandsSuffix
  }

  /** The device a URL of the form `<prefix><device><suffix>` addresses. */
  function DeviceOfUrl(url: string, suffix: string): (d: Option<string>)
    ensures d.Some? ==> url == DevicesPrefix + d.value + suffix
  {
    if StartsWith(url, DevicesPrefix) && |DevicesPrefix| + |suffix| <= |url| && EndsWith(url, suffix) then
      var d := url[|DevicesPrefix|..|url| - |suffix|];
      assert url == url[..|DevicesPrefix|] + d + url[|url| - |suffix|..];
      Some(d)
    else None
  }

  /** Both URLs name the device they were built for, and a status URL is never
      a commands URL. */
  lemma UrlsIdentifyDevice(a: string, b: string)
    ensures DeviceOfUrl(StatusUrl(a), StatusSuffix) == Some(a)
    ensures DeviceOfUrl(CommandsUrl(a), CommandsSuffix) == Some(a)
    ensures StatusUrl(a) == StatusUrl(b) ==> a == b
    ensures CommandsUrl(a) == CommandsUrl(b) ==> a == b
    ensures StatusUrl(a) != CommandsUrl(b)
  {
    var s := StatusUrl(a);
    assert s[..|DevicesPrefix|] == DevicesPrefix;
    assert s[|s| - |StatusSuffix|..] == StatusSuffix;
    assert s[|DevicesPrefix|..|s| - |StatusSuffix|] == a;
    var c := CommandsUrl(a);
    assert c[..|DevicesPrefix|] == DevicesPrefix;
    assert c[|c| - |CommandsSuffix|..] == CommandsSuffix;
    assert c[|DevicesPrefix|..|c| - |CommandsSuffix|] == a;
    if StatusUrl(a) == StatusUrl(b) {
      var t := StatusUrl(b);
      assert t[|DevicesPrefix|..|t| - |StatusSuffix|] == b;
    }
    if CommandsUrl(a) == CommandsUrl(b) {
      var t := CommandsUrl(b);
      assert t[|DevicesPrefix|..|t| - |CommandsSuffix|] == b;
    }
    var u := CommandsUrl(b);
    assert u[|u| - 7] == 'o';
    assert s[|s| - 7] == '/';
  }

  // ------------------------------------------------------------- command body

  /** The record for one command; absent or empty arguments are sent as `[]`. */
  function CommandRecord(c: Command): seq<(string, Value)> {
    [("component", Str(c.component)),
     ("capability", Str(c.capability)),
     ("command", Str(c.command)),
     ("arguments", Or(c.arguments, EmptyList))]
  }

  /** The single-command batch body `{"commands": [{...}]}`. */
  function CommandBody(c: Command): Value {
    Dict([("commands", List([Dict(CommandRecord(c))]))])
  }

  /** Reads a command record back, if it holds exactly the four fields, in
      order, and the first three are strings. */
  function ParseCommandRecord(fs: seq<(string, Value)>): Option<Command> {
    if KeysOf(fs) == ["component", "capability", "command", "arguments"] &&
       fs[0].1.Str? && fs[1].1.Str? && fs[2].1.Str? then
      Some(Command(fs[0].1.s, fs[1].1.s, fs[2].1.s, fs[3].1))
    else None
  }

  /** Reads a batch body back: the one command it carries, if the body has
      exactly that shape and no other key. */
  function ParseCommandBody(body: Value): Option<Command> {
    if !body.Dict? || KeysOf(body.entries) != ["commands"] then None
    else match body.entries[0].1
      case List(cmds) =>
        if |cmds| == 1 && cmds[0].Dict? then ParseCommandRecord(cmds[0].entries) else None
      case _ => None
  }

  lemma ParseCommandRecordOf(c: Command)
    ensures ParseCommandRecord(CommandRecord(c)) == Some(c.(arguments := Or(c.arguments, EmptyList)))
  {
    var fs := CommandRecord(c);
    assert KeysOf(fs) == ["component", "capability", "command", "arguments"];
  }

  /** The body carries exactly the command it was built from, with `arguments
      or []` applied; applying that default beforehand changes nothing. */
  lemma CommandBodyRoundTrip(c: Command)
    ensures ParseCommandBody(CommandBody(c)) == Some(c.(arguments := Or(c.arguments, EmptyList)))
    ensures CommandBody(c.(arguments := Or(c.arguments, EmptyList))) == CommandBody(c)
  {
    ParseCommandRecordOf(c);
    assert CommandRecord(c.(arguments := Or(c.arguments, EmptyList))) == CommandRecord(c);
  }

  /** Conversely, a body that reads back as a command is that command's body:
      no key is missing, extra, repeated or out of order. */
  lemma ParsedBodyIsCommandBody(body: Value, c: Command)
    requires ParseCommandBody(body) == Some(c) && Or(c.arguments, EmptyList) == c.arguments
    ensures body == CommandBody(c)
  {
    var cmds := body.entries[0].1.items;
    var fs := cmds[0].entries;
    assert fs == CommandRecord(c);
    assert cmds == [Dict(fs)];
    assert |body.entries| == |KeysOf(body.entries)| == 1;
    assert body.entries[0] == ("commands", List(cmds));
  }

  // ------------------------------------------------------------------- client

  class ApiClient {
    /** The headers sent with every request. */
    const headers: map<string, string>

    constructor (token: string)
      ensures headers == map["Authorization" := Authorization(token)]
    {
      var tok := Strip(token);
      if !StartsWith(Lower(tok), "bearer ") {
        tok := "Bearer " + tok;
      }
      headers := map["Authorization" := tok];
    }

    /** `get_status`: an authorised GET of the device's status. */
    function StatusRequest(deviceId: string): (req: Request)
      ensures req.verb == HttpGet && req.body == None && req.headers == headers
      ensures DeviceOfUrl(req.url, StatusSuffix) == Some(deviceId)
    {
      UrlsIdentifyDevice(deviceId, deviceId);
      Request(HttpGet, StatusUrl(deviceId), headers, None)
    }

    /** `send_command`: an authorised POST of a one-command batch. */
    function CommandRequest(deviceId: string, c: Command): (req: Request)
      ensures req.verb == HttpPost && req.headers == headers
      ensures DeviceOfUrl(req.url, CommandsSuffix) == Some(deviceId)
      ensures req.body.Some? && ParseCommandBody(req.body.value) == Some(c.(arguments := Or(c.arguments, EmptyList)))
    {
      UrlsIdentifyDevice(deviceId, deviceId);
      CommandBodyRoundTrip(c);
      Request(HttpPost, CommandsUrl(deviceId), headers, Some(CommandBody(c)))
    }
  }
}
