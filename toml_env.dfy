/** The server configuration (server/src/toml_env.rs): the records read
    from the TOML file, the field readers that classify free text into the
    runtime environment, a log level and a host address, and the derived
    database URL and CORS origin list. Reading and parsing the file itself
    is not part of this model: its outcome is an input to the auth gate. */
module TomlEnv {
  import opened Wrappers
  import opened Text
  import Models

  // ---------------------------------------------------------------------
  // Runtime environment
  // ---------------------------------------------------------------------

  datatype Environment = DEV | PROD {
    predicate IsDev() { this == DEV }

    predicate IsProd() { this == PROD }

    predicate IsEqual(compareWith: Environment) { this == compareWith }

    static predicate Compare(env: Environment, compareWith: Environment) {
      env == compareWith
    }
  }

  /** `deserialize_env`: only a case variant of "production" selects PROD;
      "development", the empty string and every other text select DEV. */
  function DeserializeEnv(text: string): (env: Environment)
    ensures env == PROD <==> CaseVariant(text, "production")
    ensures env == DEV <==> !CaseVariant(text, "production")
    ensures CaseVariant(text, "development") ==> env == DEV
  {
    LowercaseEqualsIff(text, "production");
    LowercaseEqualsIff(text, "development");
    var lower := Lowercase(text);
    if lower == "development" then DEV
    else if lower == "production" then PROD
    else DEV
  }

  lemma UnrecognisedEnvIsDev(text: string)
    requires !CaseVariant(text, "development") && !CaseVariant(text, "production")
    ensures DeserializeEnv(text).IsDev()
  {
  }

  /** `is_dev` and `is_prod` partition the two environments. */
  lemma DevProdPartition(env: Environment)
    ensures env.IsDev() <==> !env.IsProd()
  {
  }

  /** `is_equal` and `compare` are enum equality, hence an equivalence. */
  lemma EqualityAgrees(a: Environment, b: Environment)
    ensures a.IsEqual(b) <==> a == b
    ensures Environment.Compare(a, b) <==> a.IsEqual(b)
    ensures a.IsEqual(a)
    ensures a.IsEqual(b) <==> b.IsEqual(a)
  {
  }

  // ---------------------------------------------------------------------
  // Log level
  // ---------------------------------------------------------------------

  datatype LevelFilter = Off | Error | Warn | Info | Debug | Trace

  /** The name under which a level is written in the configuration. */
  function LevelName(level: LevelFilter): (name: string)
    ensures IsLowercase(name)
  {
    match level
    case Off => "off"
    case Error => "error"
    case Warn => "warn"
    case Info => "info"
    case Debug => "debug"
    case Trace => "trace"
  }

  /** `deserialize_log_level`: a case variant of one of the six names gives
      that level, anything else gives Info. */
  function DeserializeLogLevel(text: string): (level: LevelFilter)
    ensures forall l: LevelFilter :: CaseVariant(text, LevelName(l)) ==> level == l
    ensures level != Info ==> CaseVariant(text, LevelName(level))
  {
    LowercaseEqualsIff(text, "off");
    LowercaseEqualsIff(text, "error");
    LowercaseEqualsIff(text, "warn");
    LowercaseEqualsIff(text, "info");
    LowercaseEqualsIff(text, "debug");
    LowercaseEqualsIff(text, "trace");
    var lower := Lowercase(text);
    if lower == "off" then Off
    else if lower == "error" then Error
    else if lower == "warn" then Warn
    else if lower == "info" then Info
    else if lower == "debug" then Debug
    else if lower == "trace" then Trace
    else Info
  }

  lemma LogLevelRoundTrip(level: LevelFilter)
    ensures DeserializeLogLevel(LevelName(level)) == level
  {
    CaseVariantOfItself(LevelName(level));
  }

  // ---------------------------------------------------------------------
  // Host address
  // ---------------------------------------------------------------------

  datatype IpAddr = V4(a: Models.byte, b: Models.byte, c: Models.byte, d: Models.byte) | V6(segments: seq<Models.u16>)

  const UNSPECIFIED: IpAddr := V4(0, 0, 0, 0)

  /** `s.split(sep)`: the pieces between separators, never an empty list. */
  function SplitOn(s: string, sep: char): (parts: seq<string>)
    ensures |parts| >= 1
    ensures forall i, j :: 0 <= i < |parts| && 0 <= j < |parts[i]| ==> parts[i][j] != sep
  {
    if s == [] then [""]
    else if s[0] == sep then [""] + SplitOn(s[1..], sep)
    else
      var rest := SplitOn(s[1..], sep);
      [[s[0]] + rest[0]] + rest[1..]
  }

  lemma {:induction false} SplitOnPiece(x: string, sep: char, y: string)
    requires forall j :: 0 <= j < |x| ==> x[j] != sep
    ensures SplitOn(x + [sep] + y, sep) == [x] + SplitOn(y, sep)
  {
    if x == [] {
      assert x + [sep] + y == [sep] + y;
      assert ([sep] + y)[1..] == y;
    } else {
      var s := x + [sep] + y;
      assert s[0] == x[0];
      assert s[1..] == x[1..] + [sep] + y;
      SplitOnPiece(x[1..], sep, y);
      assert [x[0]] + x[1..] == x;
    }
  }

  lemma {:induction false} SplitOnWhole(x: string, sep: char)
    requires forall j :: 0 <= j < |x| ==> x[j] != sep
    ensures SplitOn(x, sep) == [x]
  {
    if x != [] {
      SplitOnWhole(x[1..], sep);
      assert [x[0]] + x[1..] == x;
    }
  }

  /** One dotted-quad group as Rust's address parser reads it: one to three
      ASCII digits, no leading zero, a value that fits in a byte. */
  function ParseOctet(s: string): (r: Option<Models.byte>)
    ensures r.Some? ==> 1 <= |s| <= 3 && AllDigits(s) && (|s| > 1 ==> s[0] != '0')
  {
    if 1 <= |s| <= 3 && AllDigits(s) && !(|s| > 1 && s[0] == '0') && DigitsValue(s) < 256
    then Some(DigitsValue(s) as Models.byte)
    else None
  }

  /** The pieces joined back with the separator. */
  function JoinOn(parts: seq<string>, sep: char): string {
    if parts == [] then ""
    else if |parts| == 1 then parts[0]
    else parts[0] + [sep] + JoinOn(parts[1..], sep)
  }

  /** Splitting loses nothing: the pieces joined give the text back. */
  lemma {:induction false} SplitOnJoin(s: string, sep: char)
    ensures JoinOn(SplitOn(s, sep), sep) == s
  {
    if s == [] {
    } else if s[0] == sep {
      SplitOnJoin(s[1..], sep);
      var rest := SplitOn(s[1..], sep);
      assert ([""] + rest)[1..] == rest;
      assert s == [sep] + s[1..];
    } else {
      SplitOnJoin(s[1..], sep);
      var rest := SplitOn(s[1..], sep);
      var parts := [[s[0]] + rest[0]] + rest[1..];
      assert parts[1..] == rest[1..];
      if |rest| > 1 {
        assert JoinOn(rest, sep) == rest[0] + [sep] + JoinOn(rest[1..], sep);
      }
      assert s == [s[0]] + s[1..];
    }
  }

  lemma JoinFour(w: string, x: string, y: string, z: string, sep: char)
    ensures JoinOn([w, x, y, z], sep) == w + [sep] + x + [sep] + y + [sep] + z
  {
    var ps := [w, x, y, z];
    assert ps[1..] == [x, y, z] && ps[1..][1..] == [y, z] && ps[1..][1..][1..] == [z];
    assert JoinOn([y, z], sep) == y + [sep] + z;
    assert JoinOn([x, y, z], sep) == x + [sep] + (y + [sep] + z);
  }

  /** An accepted group is the way its value prints. */
  lemma OctetIsCanonical(s: string)
    ensures ParseOctet(s).Some? ==> FormatNat(ParseOctet(s).value as nat) == s
  {
    if ParseOctet(s).Some? {
      CanonicalDigits(s);
    }
  }

  /** How an IPv4 address is written: four decimal groups joined by dots. */
  function FormatIpv4(a: Models.byte, b: Models.byte, c: Models.byte, d: Models.byte): string {
    FormatNat(a as nat) + "." + FormatNat(b as nat) + "." + FormatNat(c as nat) + "." + FormatNat(d as nat)
  }

  /** `str::parse::<IpAddr>` for dotted-quad IPv4 text. Only the canonical
      spelling of an address is accepted: text that parses is exactly the
      written form of the address it gives, so "01.2.3.4", "1.2.3" or
      " 1.2.3.4" are refused. */
  function ParseIpAddr(s: string): (r: Option<IpAddr>)
    ensures r.Some? ==> r.value.V4? && s == FormatIpv4(r.value.a, r.value.b, r.value.c, r.value.d)
  {
    var parts := SplitOn(s, '.');
    if |parts| != 4 then None
    else match (ParseOctet(parts[0]), ParseOctet(parts[1]), ParseOctet(parts[2]), ParseOctet(parts[3]))
      case (Some(a), Some(b), Some(c), Some(d)) =>
        OctetIsCanonical(parts[0]);
        OctetIsCanonical(parts[1]);
        OctetIsCanonical(parts[2]);
        OctetIsCanonical(parts[3]);
        SplitOnJoin(s, '.');
        assert parts == [parts[0], parts[1], parts[2], parts[3]];
        JoinFour(parts[0], parts[1], parts[2], parts[3], '.');
        Some(V4(a, b, c, d))
      case _ => None
  }

  /** `deserialize_host`: never an error; text that is not an address
      becomes 0.0.0.0. */
  function DeserializeHost(text: string): (ip: IpAddr)
    ensures ParseIpAddr(text).None? ==> ip == UNSPECIFIED
    ensures ParseIpAddr(text).Some? ==> ip == ParseIpAddr(text).value
  {
    match ParseIpAddr(text)
    case Some(ip) => ip
    case None => UNSPECIFIED
  }

  predicate NoDot(s: string) {
    forall j :: 0 <= j < |s| ==> s[j] != '.'
  }

  lemma ParseFormattedOctet(n: Models.byte)
    ensures ParseOctet(FormatNat(n as nat)) == Some(n)
    ensures NoDot(FormatNat(n as nat))
  {
    FormatNatBounds(n as nat);
  }

  /** A written IPv4 address reads back as itself. */
  lemma {:induction false} DeserializeHostRoundTrip(a: Models.byte, b: Models.byte, c: Models.byte, d: Models.byte)
    ensures DeserializeHost(FormatIpv4(a, b, c, d)) == V4(a, b, c, d)
  {
    var sa, sb, sc, sd := FormatNat(a as nat), FormatNat(b as nat), FormatNat(c as nat), FormatNat(d as nat);
    ParseFormattedOctet(a);
    ParseFormattedOctet(b);
    ParseFormattedOctet(c);
    ParseFormattedOctet(d);
    assert FormatIpv4(a, b, c, d) == sa + ['.'] + (sb + ['.'] + (sc + ['.'] + sd));
    SplitOnPiece(sa, '.', sb + ['.'] + (sc + ['.'] + sd));
    SplitOnPiece(sb, '.', sc + ['.'] + sd);
    SplitOnPiece(sc, '.', sd);
    SplitOnWhole(sd, '.');
    assert SplitOn(FormatIpv4(a, b, c, d), '.') == [sa, sb, sc, sd];
  }

  /** Text without a dot, such as the host name "localhost", is not an
      address and falls back to 0.0.0.0. */
  lemma HostNameFallsBack(text: string)
    requires NoDot(text)
    ensures DeserializeHost(text) == UNSPECIFIED
  {
    SplitOnWhole(text, '.');
  }

  // ---------------------------------------------------------------------
  // Configuration records
  // ---------------------------------------------------------------------

  /** Where a URL's host ends: the position of its last colon. */
  function LastColon(s: string): (r: Option<nat>)
    ensures r.Some? ==> r.value < |s| && s[r.value] == ':'
    ensures r.Some? ==> forall j :: r.value < j < |s| ==> s[j] != ':'
    ensures r.None? ==> forall j :: 0 <= j < |s| ==> s[j] != ':'
  {
    if s == [] then None
    else if s[|s| - 1] == ':' then Some(|s| - 1)
    else LastColon(s[..|s| - 1])
  }

  /** Splits `host:port` at the last colon: the reading a client applies to
      the URL the server builds. */
  function ParseUrl(url: string): Option<(string, Models.u16)> {
    match LastColon(url)
    case None => None
    case Some(i) =>
      match ParseNat(url[i + 1..])
      case Some(p) => if p < 0x1_0000 then Some((url[..i], p as Models.u16)) else None
      case None => None
  }

  datatype DatabaseConfig = DatabaseConfig(
    host: string,
    port: Models.u16,
    name: string,
    username: string,
    password: string)
  {
    /** `get_url`: the host, a colon and the decimal port; the two parts
        read back from the URL. */
    function GetUrl(): (url: string)
      ensures ParseUrl(url) == Some((host, port))
      ensures |url| > |host| + 1 && url[|host| + 1..] == FormatNat(port as nat)
    {
      var digits := FormatNat(port as nat);
      var url := host + ":" + digits;
      assert url[|host|] == ':';
      assert url[|host| + 1..] == digits;
      assert url[..|host|] == host;
      assert LastColon(url) == Some(|host|);
      url
    }
  }

  datatype LogConfig = LogConfig(path: string, level: LevelFilter)

  /** A `HeaderValue`: text that may go into an HTTP header. */
  datatype HeaderValue = HeaderValue(text: string)

  /** What `HeaderValue::from_str` accepts: no control character other than
      a tab, and no DEL. */
  predicate IsHeaderText(s: string) {
    forall i :: 0 <= i < |s| ==> s[i] == '\t' || (' ' <= s[i] && s[i] != '\U{7F}')
  }

  datatype ServerConfig = ServerConfig(
    env: Environment,
    host: IpAddr,
    port: Models.u16,
    secret: string,
    origins: Option<seq<string>>)
  {
    /** `allow_origins`: no origins configured gives no CORS list; otherwise
        one header value per configured origin, in order. The source unwraps
        each parse, so every origin must be valid header text. */
    method AllowOrigins() returns (allowed: Option<seq<HeaderValue>>)
      requires origins.Some? ==> forall i :: 0 <= i < |origins.value| ==> IsHeaderText(origins.value[i])
      ensures allowed.None? <==> origins.None?
      ensures allowed.Some? ==> |allowed.value| == |origins.value|
      ensures allowed.Some? ==> forall i :: 0 <= i < |allowed.value| ==> allowed.value[i].text == origins.value[i]
    {
      var list: seq<HeaderValue> := [];
      match origins {
        case Some(values) =>
          for k := 0 to |values|
            invariant |list| == k
            invariant forall i :: 0 <= i < k ==> list[i].text == values[i]
          {
            list := list + [HeaderValue(values[k])];
          }
          return Some(list);
        case None =>
          return None;
      }
    }
  }

  datatype Config = Config(db: DatabaseConfig, log: LogConfig, server: ServerConfig)
}
