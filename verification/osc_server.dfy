/** The pure parts of the OSC connection manager: outbound messages, the text
    form of argument lists, `auto_convert`, the peer-address registry and the
    choice of send route. */
module OscServer {
  import opened Wrappers
  import opened Decimal

  /** An OSC argument (rosc's `OscType`). The variants the program reads are
      explicit, as is the one non-finite float it can send; any other variant
      is carried by its `Debug` text. */
  datatype OscType =
    | Int(i: I32)
    | Float(f: real)
    | FloatNegInfinity
    | Bool(b: bool)
    | Other(debugText: OtherDebugText)

  /** The `Debug` text of a variant other than Int, Float and Bool (such as
      `Nil`, `String("..")` or `Long(..)`): it never reads as one of those. */
  type OtherDebugText = t: string | !StartsWith(t, "Int(") && !StartsWith(t, "Float(") && !StartsWith(t, "Bool(")
    witness "Nil"

  /** An OSC message: an address and its argument list. */
  datatype OscMessage = OscMessage(addr: string, args: seq<OscType>)

  /** What arrives from the peer. */
  datatype OscPacket = Message(msg: OscMessage) | Bundle

  /** The kind `auto_convert` reports. */
  datatype ValueType = FloatValue | IntValue | BoolValue | UnknownValue

  /** `auto_convert`'s answer: the kind and the value's canonical text. */
  datatype Converted = Converted(kind: ValueType, text: string)

  /** The `f32` text conversions of the standard library, which this model
      takes as given: `parse` is `str::parse::<f32>`, `display` is `Display`
      and `debug` is `Debug`. */
  datatype FloatFormat = FloatFormat(
    parse: string -> Option<real>,
    display: real -> string,
    debug: real -> string)

  predicate StartsWith(s: string, prefix: string) {
    |prefix| <= |s| && s[..|prefix|] == prefix
  }

  predicate EndsWith(s: string, suffix: string) {
    |suffix| <= |s| && s[|s| - |suffix|..] == suffix
  }

  /** `str::strip_prefix`. */
  function StripPrefix(s: string, prefix: string): (r: Option<string>)
    ensures r.Some? <==> StartsWith(s, prefix)
    ensures r.Some? ==> prefix + r.value == s
  {
    if StartsWith(s, prefix) then Some(s[|prefix|..]) else None
  }

  /** `str::strip_suffix`. */
  function StripSuffix(s: string, suffix: string): (r: Option<string>)
    ensures r.Some? <==> EndsWith(s, suffix)
    ensures r.Some? ==> r.value + suffix == s
  {
    if EndsWith(s, suffix) then Some(s[..|s| - |suffix|]) else None
  }

  /** The text between `name(` and a final `)`, if s has that shape. */
  function CallArgument(s: string, name: string): (r: Option<string>)
    ensures r.Some? <==> StartsWith(s, name + "(") && EndsWith(s[|name| + 1..], ")")
    ensures r.Some? ==> name + "(" + r.value + ")" == s
  {
    match StripPrefix(s, name + "(")
    case None => None
    case Some(rest) => StripSuffix(rest, ")")
  }

  /** rosc's derived `Debug` for one argument, e.g. `Int(3)`, `Bool(true)`. */
  function DebugArg(a: OscType, ff: FloatFormat): string {
    match a
    case Int(i) => "Int(" + IntToString(i) + ")"
    case Float(f) => "Float(" + ff.debug(f) + ")"
    case FloatNegInfinity => "Float(-inf)"
    case Bool(b) => "Bool(" + BoolToString(b) + ")"
    case Other(t) => t
  }

  function JoinDebug(args: seq<OscType>, ff: FloatFormat): string {
    if |args| == 0 then ""
    else if |args| == 1 then DebugArg(args[0], ff)
    else DebugArg(args[0], ff) + ", " + JoinDebug(args[1..], ff)
  }

  /** `format!("{:?}", args)` for an argument vector: `[a, b, ...]`. */
  function DebugArgs(args: seq<OscType>, ff: FloatFormat): (s: string)
    ensures |s| >= 2 && s[0] == '[' && s[|s| - 1] == ']'
    ensures |args| == 0 ==> s == "[]"
    ensures |args| == 1 ==> s == "[" + DebugArg(args[0], ff) + "]"
  {
    "[" + JoinDebug(args, ff) + "]"
  }

  /** With two or more arguments, the text is the first argument's, then
      ", ", then the text of the rest without its opening bracket. */
  lemma DebugArgsCons(args: seq<OscType>, ff: FloatFormat)
    requires |args| >= 2
    ensures DebugArgs(args, ff) == "[" + DebugArg(args[0], ff) + ", " + DebugArgs(args[1..], ff)[1..]
  {
    var h, tail := DebugArg(args[0], ff), JoinDebug(args[1..], ff);
    assert JoinDebug(args, ff) == h + ", " + tail;
    BracketShift(h, tail);
  }

  /** Dropping the opening bracket of a bracketed list lets it continue
      another one. */
  lemma BracketShift(h: string, t: string)
    ensures "[" + (h + ", " + t) + "]" == "[" + h + ", " + ("[" + t + "]")[1..]
  {
    assert ("[" + t + "]")[1..] == t + "]";
  }

  /** The conversion of a `Float(..)` argument's text. */
  function ConvertFloat(t: string, ff: FloatFormat): Option<Converted> {
    match ff.parse(t)
    case None => None
    case Some(v) => Some(Converted(FloatValue, ff.display(v)))
  }

  /** The conversion of an `Int(..)` argument's text: an i16, reprinted. */
  function ConvertInt(t: string): Option<Converted> {
    match ParseI16(t)
    case None => None
    case Some(v) => Some(Converted(IntValue, IntToString(v)))
  }

  /** The conversion of a `Bool(..)` argument's text. */
  function ConvertBool(t: string): Option<Converted> {
    match ParseBool(t)
    case None => None
    case Some(v) => Some(Converted(BoolValue, BoolToString(v)))
  }

  /** The text inside the brackets, read by its leading name. */
  function Classify(trimmed: string, input: string, ff: FloatFormat): Option<Converted> {
    if StartsWith(trimmed, "Float") then
      match CallArgument(trimmed, "Float")
      case None => None
      case Some(t) => ConvertFloat(t, ff)
    else if StartsWith(trimmed, "Int") then
      match CallArgument(trimmed, "Int")
      case None => None
      case Some(t) => ConvertInt(t)
    else if StartsWith(trimmed, "Bool") then
      match CallArgument(trimmed, "Bool")
      case None => None
      case Some(t) => ConvertBool(t)
    else Some(Converted(UnknownValue, input))
  }

  /** `OscServer::auto_convert`: strips one pair of brackets, then reads a
      `Float(..)`, `Int(..)` or `Bool(..)` argument; any other bracketed text is
      `Unknown` and keeps its brackets. */
  function AutoConvert(input: string, ff: FloatFormat): (r: Option<Converted>)
    ensures r.Some? ==> |input| >= 2 && input[0] == '[' && input[|input| - 1] == ']'
  {
    if !(|input| >= 2 && input[0] == '[' && input[|input| - 1] == ']') then None
    else Classify(input[1..|input| - 1], input, ff)
  }

  /** The inner text of a bracketed input. */
  function Inner(input: string): string
    requires |input| >= 2
  {
    input[1..|input| - 1]
  }

  /** An `Int(..)` argument converts exactly when its text parses as an i16,
      and then to that number's canonical decimal. */
  lemma AutoConvertInt(t: string, ff: FloatFormat)
    ensures AutoConvert("[Int(" + t + ")]", ff)
         == if ParseI16(t).Some? then Some(Converted(IntValue, IntToString(ParseI16(t).value))) else None
  {
    var input := "[Int(" + t + ")]";
    assert Inner(input) == "Int(" + t + ")";
    assert !StartsWith(Inner(input), "Float") by { assert Inner(input)[0] == 'I'; }
    assert StartsWith(Inner(input), "Int");
    assert CallArgument(Inner(input), "Int") == Some(t) by {
      assert Inner(input)[|"Int("|..] == t + ")";
    }
  }

  /** A `Bool(..)` argument converts exactly when its text is "true" or
      "false", and then to that same text. */
  lemma AutoConvertBool(t: string, ff: FloatFormat)
    ensures AutoConvert("[Bool(" + t + ")]", ff)
         == if t == "true" || t == "false" then Some(Converted(BoolValue, t)) else None
  {
    var input := "[Bool(" + t + ")]";
    assert Inner(input) == "Bool(" + t + ")";
    assert !StartsWith(Inner(input), "Float") by { assert Inner(input)[0] == 'B'; }
    assert !StartsWith(Inner(input), "Int") by { assert Inner(input)[0] == 'B'; }
    assert StartsWith(Inner(input), "Bool");
    assert CallArgument(Inner(input), "Bool") == Some(t) by {
      assert Inner(input)[|"Bool("|..] == t + ")";
    }
  }

  /** Inner text that names Float, Int or Bool but lacks the `(`..`)` wrapper
      converts to nothing. */
  lemma AutoConvertUnwrapped(input: string, name: string, ff: FloatFormat)
    requires name == "Float" || name == "Int" || name == "Bool"
    requires |input| >= 2 && input[0] == '[' && input[|input| - 1] == ']'
    requires StartsWith(Inner(input), name) && CallArgument(Inner(input), name).None?
    ensures AutoConvert(input, ff) == None
  {
    var trimmed := Inner(input);
    assert trimmed[0] == name[0];
    if name == "Int" {
      assert !StartsWith(trimmed, "Float");
    } else if name == "Bool" {
      assert !StartsWith(trimmed, "Float");
      assert !StartsWith(trimmed, "Int");
    }
  }

  /** Any other bracketed input is `Unknown` and comes back whole, brackets
      included. */
  lemma AutoConvertUnknown(input: string, ff: FloatFormat)
    requires |input| >= 2 && input[0] == '[' && input[|input| - 1] == ']'
    requires !StartsWith(Inner(input), "Float")
    requires !StartsWith(Inner(input), "Int")
    requires !StartsWith(Inner(input), "Bool")
    ensures AutoConvert(input, ff) == Some(Converted(UnknownValue, input))
  {
  }

  /** The argument list of a message carrying one integer converts to the
      integer's decimal when it fits an i16, and to nothing otherwise. */
  lemma AutoConvertIntArg(n: I32, ff: FloatFormat)
    ensures AutoConvert(DebugArgs([Int(n)], ff), ff)
         == if -0x8000 <= n <= 0x7FFF then Some(Converted(IntValue, IntToString(n))) else None
  {
    assert JoinDebug([Int(n)], ff) == "Int(" + IntToString(n) + ")";
    assert DebugArgs([Int(n)], ff) == "[Int(" + IntToString(n) + ")]";
    AutoConvertInt(IntToString(n), ff);
    ParseIntToString(n, true, -0x8000, 0x7FFF);
  }

  /** The argument list of a message carrying one boolean converts to
      "true" or "false". */
  lemma AutoConvertBoolArg(b: bool, ff: FloatFormat)
    ensures AutoConvert(DebugArgs([Bool(b)], ff), ff) == Some(Converted(BoolValue, BoolToString(b)))
  {
    assert JoinDebug([Bool(b)], ff) == "Bool(" + BoolToString(b) + ")";
    assert DebugArgs([Bool(b)], ff) == "[Bool(" + BoolToString(b) + ")]";
    AutoConvertBool(BoolToString(b), ff);
  }

  // ---------------------------------------------------------------------
  // Peer-address registry and send routing

  /** A discovered peer endpoint (`VRChatOscAddresss`). */
  datatype VrcAddress = VrcAddress(host: string, port: U16)

  /** `host:port`, with the port in decimal. */
  function JoinHostPort(host: string, port: U16): string {
    host + ":" + NatToString(port)
  }

  /** Index of the last occurrence of c in s. */
  function LastIndexOf(s: string, c: char): (r: Option<nat>)
    ensures r.Some? ==> r.value < |s| && s[r.value] == c
    ensures r.Some? ==> forall j :: r.value < j < |s| ==> s[j] != c
    ensures r.None? ==> forall j :: 0 <= j < |s| ==> s[j] != c
  {
    if |s| == 0 then None
    else if s[|s| - 1] == c then Some(|s| - 1)
    else LastIndexOf(s[..|s| - 1], c)
  }

  /** Reads `host:port` back, splitting at the last colon (a port has none,
      whatever the host holds). */
  function SplitHostPort(s: string): Option<(string, U16)> {
    match LastIndexOf(s, ':')
    case None => None
    case Some(k) =>
      match ParseU16(s[k + 1..])
      case None => None
      case Some(p) => Some((s[..k], p))
  }

  /** Joining a host and a port and splitting the text again gives them back. */
  lemma SplitJoinHostPort(host: string, port: U16)
    ensures SplitHostPort(JoinHostPort(host, port)) == Some((host, port))
  {
    var s := JoinHostPort(host, port);
    var digits := NatToString(port);
    assert s[|host|] == ':';
    assert forall j :: |host| < j < |s| ==> s[j] == digits[j - |host| - 1];
    assert LastIndexOf(s, ':') == Some(|host|);
    assert s[|host| + 1..] == digits;
    assert s[..|host|] == host;
    ParseIntToString(port, false, 0, 0xFFFF);
  }

  /** `set_vrc_address(host, port)`: the registry now holds that endpoint. */
  function SetVrcAddress(host: string, port: U16): (r: Option<VrcAddress>)
    ensures GetOscQuery(r) == Some("http://" + JoinHostPort(host, port))
  {
    Some(VrcAddress(host, port))
  }

  /** `get_osc_query`: the metadata base URL `http://host:port` of the
      registered endpoint, if one is registered. */
  function GetOscQuery(registry: Option<VrcAddress>): (url: Option<string>)
    ensures url.Some? <==> registry.Some?
    ensures url.Some? ==> StartsWith(url.value, "http://")
  {
    match registry
    case None => None
    case Some(a) => Some("http://" + JoinHostPort(a.host, a.port))
  }

  /** The endpoint the base URL names can be read back from it. */
  lemma GetOscQueryRoundTrip(registry: Option<VrcAddress>)
    requires registry.Some?
    ensures SplitHostPort(GetOscQuery(registry).value[7..]) == Some((registry.value.host, registry.value.port))
  {
    var a := registry.value;
    assert GetOscQuery(registry).value[7..] == JoinHostPort(a.host, a.port);
    SplitJoinHostPort(a.host, a.port);
  }

  /** Where a direct-socket send goes when nothing is registered. */
  const FallbackTarget: string := "127.0.0.1:9000"

  /** The fallback is the local peer's default OSC input port. */
  lemma FallbackTargetIsLocalDefault()
    ensures FallbackTarget == JoinHostPort("127.0.0.1", 9000)
  {
    assert NatToString(9) == "9";
    assert NatToString(90) == "90";
    assert NatToString(900) == "900";
    assert NatToString(9000) == "9000";
  }

  /** The target of a direct-socket send: the registered `host:port`, or
      127.0.0.1:9000 when none is registered. */
  function SendTarget(registry: Option<VrcAddress>): (target: string)
    ensures SplitHostPort(target) == Some(
      if registry.Some? then (registry.value.host, registry.value.port) else ("127.0.0.1", 9000))
  {
    match registry
    case Some(a) =>
      SplitJoinHostPort(a.host, a.port);
      JoinHostPort(a.host, a.port)
    case None =>
      FallbackTargetIsLocalDefault();
      SplitJoinHostPort("127.0.0.1", 9000);
      FallbackTarget
  }

  /** How `send_osc_data` delivers a message. */
  datatype Route =
    | Managed(recipients: string)   // through the discovery session, to a name pattern
    | Direct(target: string)        // through the bound UDP socket

  /** The recipient pattern of managed-session sends. */
  const ManagedRecipients: string := "VRChat-Client-*"

  /** `send_osc_data`'s choice of route: the managed session when one exists,
      else the bound socket towards `SendTarget`; with neither, the source
      panics ("UDP socket not initialized"), which is `None` here. */
  function SendRoute(sessionOpen: bool, socketBound: bool, registry: Option<VrcAddress>): (r: Option<Route>)
    ensures r.None? <==> !sessionOpen && !socketBound
    ensures sessionOpen ==> r == Some(Managed(ManagedRecipients))
    ensures !sessionOpen && socketBound ==>
              (r.Some? && r.value.Direct? && r.value.target == SendTarget(registry))
  {
    if sessionOpen then Some(Managed(ManagedRecipients))
    else if socketBound then Some(Direct(SendTarget(registry)))
    else None
  }
}
