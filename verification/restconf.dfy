/**
 The pure part of the RESTCONF client that shuts an interface down or brings
 it back up through NSO: the URL of the interface, the admin-state payload,
 the command-line arguments and the report built from the HTTP answer. The
 HTTP exchange itself is an input.
 */
module Restconf {
  import opened Json
  import opened Text

  const DefaultBaseUrl: string := "http://localhost:8080"
  const DefaultRouter: string := "Base"
  const DefaultAction: string := "shutdown"
  const Actions: seq<string> := ["shutdown", "no-shutdown"]

  /** One requested change: which interface of which router of which device, and what to do. */
  datatype InterfaceAction = InterfaceAction(device: string, iface: string, router: string, action: string)

  // ---------------------------------------------------------------------------
  // The interface URL
  // ---------------------------------------------------------------------------

  /** `interface.replace("/", "%2F")`. */
  function Encode(iface: string): (r: string)
    ensures '/' !in r
    ensures '/' !in iface ==> r == iface
  {
    ReplaceChar(iface, '/', "%2F")
  }

  /** How the server reads the last URL segment back: each `%2F` is a `/` again. */
  function Decode(s: string): (r: string)
    ensures |r| <= |s|
  {
    if |s| >= 3 && s[..3] == "%2F" then "/" + Decode(s[3..])
    else if s == [] then []
    else [s[0]] + Decode(s[1..])
  }

  lemma EncodeCons(c: char, rest: string)
    ensures Encode([c] + rest) == (if c == '/' then "%2F" else [c]) + Encode(rest)
  {
    assert ([c] + rest)[1..] == rest;
  }

  /** The first character of an encoding, and what follows it when the name does not start with `/`. */
  lemma EncodeFirst(s: string)
    requires s != []
    ensures Encode(s) != [] && Encode(s)[0] == (if s[0] == '/' then '%' else s[0])
    ensures s[0] != '/' ==> Encode(s)[1..] == Encode(s[1..])
  {
    assert s == [s[0]] + s[1..];
    EncodeCons(s[0], s[1..]);
  }

  /** An encoding of a name that does not start with `/` starts with `%2F` only when the name does. */
  lemma EncodeStart(s: string)
    requires s != [] && s[0] != '/'
    ensures |Encode(s)| >= 3 && Encode(s)[..3] == "%2F" ==> OccursAt(s, "%2F", 0)
  {
    var e := Encode(s);
    if |e| >= 3 && e[..3] == "%2F" {
      EncodeFirst(s);
      var e1 := Encode(s[1..]);
      assert e1 == e[1..] && e1[0] == '2' && e1[1] == 'F';
      EncodeFirst(s[1..]);
      assert s[1] == '2' && s[1..][1..] == s[2..];
      var e2 := Encode(s[2..]);
      assert e2 == e1[1..] && e2[0] == 'F';
      EncodeFirst(s[2..]);
      assert s[2] == 'F';
      assert s[..3] == "%2F";
    }
  }

  /** Decoding undoes encoding, for every name that does not already contain `%2F`. */
  lemma {:induction false} DecodeEncode(s: string)
    requires !Contains(s, "%2F")
    ensures Decode(Encode(s)) == s
    decreases |s|
  {
    if s != [] {
      var rest := s[1..];
      assert s == [s[0]] + rest;
      EncodeCons(s[0], rest);
      assert !Contains(rest, "%2F") by {
        forall j | OccursAt(rest, "%2F", j) ensures OccursAt(s, "%2F", j + 1) {
          assert s[j + 1..j + 4] == rest[j..j + 3];
        }
      }
      DecodeEncode(rest);
      var e := Encode(s);
      if s[0] == '/' {
        assert e == "%2F" + Encode(rest);
        assert e[..3] == "%2F" && e[3..] == Encode(rest);
      } else {
        EncodeStart(s);
        assert !OccursAt(s, "%2F", 0);
        assert e == [s[0]] + Encode(rest);
        assert e[1..] == Encode(rest);
      }
    }
  }

  /** The path below the base URL, with only the interface name encoded. */
  function Path(device: string, router: string, iface: string): string {
    "/restconf/data/devices/device=" + device + "/config/configure/router=" + router + "/interface=" + Encode(iface)
  }

  /** `_build_interface_url`. */
  function InterfaceUrl(baseUrl: string, device: string, router: string, iface: string): (r: string)
    ensures StartsWith(r, baseUrl) && r[|baseUrl|..] == Path(device, router, iface)
  {
    baseUrl + Path(device, router, iface)
  }

  /** The path segments a server sees after the base URL. */
  function Segments(device: string, router: string, iface: string): seq<string> {
    ["", "restconf", "data", "devices", "device=" + device, "config", "configure", "router=" + router, "interface=" + Encode(iface)]
  }

  /** The path regrouped around the three fields. */
  lemma PathGrouped(device: string, router: string, e: string)
    ensures "/restconf/data/devices/device=" + device + "/config/configure/router=" + router + "/interface=" + e
      == "/restconf/data/devices/" + (("device=" + device) + ("/config/configure/" + (("router=" + router) + ("/" + ("interface=" + e)))))
  {
    var d, t, l := "device=" + device, "router=" + router, "interface=" + e;
    assert "/restconf/data/devices/device=" + device == "/restconf/data/devices/" + d;
    assert "/restconf/data/devices/device=" + device + "/config/configure/router=" + router
      == "/restconf/data/devices/" + d + "/config/configure/" + t;
    assert "/interface=" + e == "/" + l;
  }

  /** The last three segments joined, regrouped. */
  lemma JoinTail(t: string, l: string)
    ensures "config" + "/" + ("configure" + "/" + (t + "/" + l)) == "config/configure/" + (t + ("/" + l))
  {
    assert "configure" + "/" + (t + "/" + l) == "configure/" + (t + ("/" + l));
  }

  /** The first segments joined, regrouped. */
  lemma JoinHead(d: string, y: string)
    ensures "" + "/" + ("restconf" + "/" + ("data" + "/" + ("devices" + "/" + (d + "/" + y))))
      == "/restconf/data/devices/" + (d + ("/" + y))
  {
    assert "devices" + "/" + (d + "/" + y) == "devices/" + (d + ("/" + y));
    assert "data" + "/" + ("devices/" + (d + ("/" + y))) == "data/devices/" + (d + ("/" + y));
  }

  /** The segments joined one separator at a time, regrouped the same way. */
  lemma JoinGrouped(d: string, t: string, l: string)
    ensures "" + "/" + ("restconf" + "/" + ("data" + "/" + ("devices" + "/" + (d + "/" + ("config" + "/" + ("configure" + "/" + (t + "/" + l)))))))
      == "/restconf/data/devices/" + (d + ("/config/configure/" + (t + ("/" + l))))
  {
    JoinTail(t, l);
    var y := "config" + "/" + ("configure" + "/" + (t + "/" + l));
    JoinHead(d, y);
    assert "/" + ("config/configure/" + (t + ("/" + l))) == "/config/configure/" + (t + ("/" + l));
  }

  /** Joining the segments with `/` spells the path. */
  lemma PathSegments(device: string, router: string, iface: string)
    ensures Join("/", Segments(device, router, iface)) == Path(device, router, iface)
  {
    var d, t, l := "device=" + device, "router=" + router, "interface=" + Encode(iface);
    JoinCons("/", t, [l]);
    JoinCons("/", "configure", [t, l]);
    JoinCons("/", "config", ["configure", t, l]);
    JoinCons("/", d, ["config", "configure", t, l]);
    JoinCons("/", "devices", [d, "config", "configure", t, l]);
    JoinCons("/", "data", ["devices", d, "config", "configure", t, l]);
    JoinCons("/", "restconf", ["data", "devices", d, "config", "configure", t, l]);
    JoinCons("/", "", ["restconf", "data", "devices", d, "config", "configure", t, l]);
    JoinGrouped(d, t, l);
    PathGrouped(device, router, Encode(iface));
  }

  /**
   A server splitting the path on `/` finds device, router and the encoded
   interface in their own segments, and decoding the last one gives the
   interface name back: device and router are not encoded, so they must not
   contain `/` themselves.
   */
  lemma UrlRoundTrip(baseUrl: string, device: string, router: string, iface: string)
    requires '/' !in device && '/' !in router && !Contains(iface, "%2F")
    ensures var url := InterfaceUrl(baseUrl, device, router, iface);
      Split(url[|baseUrl|..], "/") == Segments(device, router, iface)
    ensures Decode(Segments(device, router, iface)[8][|"interface="|..]) == iface
  {
    var g := Segments(device, router, iface);
    PathSegments(device, router, iface);
    SplitJoin(g, '/');
    assert g[8][|"interface="|..] == Encode(iface);
    DecodeEncode(iface);
  }

  // ---------------------------------------------------------------------------
  // The admin-state payload
  // ---------------------------------------------------------------------------

  /** Nokia SR OS: `shutdown` disables the interface, anything else enables it. */
  function AdminState(action: string): (r: string)
    ensures r == "disable" <==> action == "shutdown"
    ensures r == "enable" <==> action != "shutdown"
  {
    if action == "shutdown" then "disable" else "enable"
  }

  /** The PATCH body: a single `admin-state` leaf under the interface. */
  function Payload(action: string): (r: Json)
    ensures r.Obj? && Keys(r.fields) == {"nokia-conf:interface"}
  {
    var fs := [("nokia-conf:interface", Obj([("admin-state", Str(AdminState(action)))]))];
    assert Keys(fs) == {fs[0].0};
    Obj(fs)
  }

  /** The admin state a device reads out of a PATCH body, if the body has the expected shape. */
  function ReadAdminState(body: Json): Option<string> {
    if !body.Obj? then None
    else
      var leaf := Get(body.fields, "nokia-conf:interface");
      if leaf.None? || !leaf.value.Obj? then None
      else
        var state := Get(leaf.value.fields, "admin-state");
        if state.None? || !state.value.Str? then None else Some(state.value.s)
  }

  /** The command that produces a given admin state. */
  function ActionOf(state: string): string {
    if state == "disable" then "shutdown" else "no-shutdown"
  }

  /** The payload carries the admin state, and for the two accepted actions the action can be read back from it. */
  lemma PayloadRoundTrip(action: string)
    ensures ReadAdminState(Payload(action)) == Some(AdminState(action))
    ensures action in Actions ==> ActionOf(ReadAdminState(Payload(action)).value) == action
  {
  }

  // ---------------------------------------------------------------------------
  // Command line
  // ---------------------------------------------------------------------------

  /**
   `main`'s argument handling on `sys.argv` (program name first): device and
   interface are required, the action defaults to `shutdown` and the router to
   `Base`, and an action other than `shutdown` / `no-shutdown` is refused.
   */
  function ParseArgs(argv: seq<string>): (r: Result<InterfaceAction>)
    ensures |argv| < 3 ==> r.Err?
    ensures r.Ok? <==> |argv| >= 3 && (|argv| == 3 || argv[3] in Actions)
    ensures r.Ok? ==> r.value.device == argv[1] && r.value.iface == argv[2] && r.value.action in Actions
    ensures r.Ok? ==> r.value.action == (if |argv| > 3 then argv[3] else DefaultAction)
    ensures r.Ok? ==> r.value.router == (if |argv| > 4 then argv[4] else DefaultRouter)
  {
    if |argv| < 3 then Err("Missing required arguments")
    else
      var action := if |argv| > 3 then argv[3] else DefaultAction;
      var router := if |argv| > 4 then argv[4] else DefaultRouter;
      if action !in Actions then Err("Invalid action")
      else Ok(InterfaceAction(argv[1], argv[2], router, action))
  }

  /** A command line that asks for `a`, spelled out in full. */
  function Argv(a: InterfaceAction): seq<string> {
    ["nso_shutdown_interface", a.device, a.iface, a.action, a.router]
  }

  /** Every valid action survives being written as a command line and parsed again; the short forms pick the defaults. */
  lemma ArgsRoundTrip(a: InterfaceAction)
    requires a.action in Actions
    ensures ParseArgs(Argv(a)) == Ok(a)
    ensures ParseArgs(Argv(a)[..3]) == Ok(InterfaceAction(a.device, a.iface, DefaultRouter, DefaultAction))
    ensures ParseArgs(Argv(a)[..4]) == Ok(InterfaceAction(a.device, a.iface, DefaultRouter, a.action))
  {
  }

  // ---------------------------------------------------------------------------
  // The request and its report
  // ---------------------------------------------------------------------------

  /** What the HTTP PATCH came back with: a status and body, an aiohttp client error, or any other exception. */
  datatype Exchange = Answered(status: int, text: string) | ClientError(msg: string) | OtherError(msg: string)

  /** The dict `set_interface_admin_state` returns. */
  datatype Report =
    | Success(status: int, device: string, iface: string, adminState: string, response: string)
    | Failure(code: Option<int>, error: string)

  /** The PATCH to send: the interface URL and the payload. */
  function Request(baseUrl: string, a: InterfaceAction): (string, Json) {
    (InterfaceUrl(baseUrl, a.device, a.router, a.iface), Payload(a.action))
  }

  /** `set_interface_admin_state` once the PATCH has an outcome. */
  function SetAdminState(a: InterfaceAction, ex: Exchange): (r: Report)
    ensures r.Success? <==> ex.Answered? && 200 <= ex.status < 300
    ensures r.Success? ==>
      r.status == ex.status && r.device == a.device && r.iface == a.iface && r.adminState == AdminState(a.action) && r.response == ex.text
    ensures ex.Answered? && r.Failure? ==> r.code == Some(ex.status) && r.error == ex.text
    ensures !ex.Answered? ==> r.Failure? && r.code.None? && StartsWith(r.error, if ex.ClientError? then "CLIENT_ERROR: " else "UNKNOWN_ERROR: ")
  {
    match ex
    case Answered(status, text) =>
      if 200 <= status < 300 then Success(status, a.device, a.iface, AdminState(a.action), text)
      else Failure(Some(status), text)
    case ClientError(msg) => Failure(None, "CLIENT_ERROR: " + msg)
    case OtherError(msg) => Failure(None, "UNKNOWN_ERROR: " + msg)
  }
}
