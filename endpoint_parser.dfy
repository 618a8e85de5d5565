/**
 * Endpoint strings: a bare hostname, `tcp:host[:port]`, `tcp://host[:port]`,
 * `rtu:<serial port>` or `rtu://<serial port>`, resolved together with the
 * optional `--port` flag into a TCP or an RTU endpoint. Every failure is an
 * `IllegalArgumentException`; `EndpointError.Message` gives its text.
 */
module EndpointParser {
  import opened Wrappers
  import opened JavaText

  const DefaultTcpPort: int := 502

  /** A resolved endpoint. */
  datatype Endpoint = Tcp(hostname: string, port: int) | Rtu(serialPort: string)

  /** A TCP endpoint before port resolution; `port` is `None` when the
      endpoint text names no port. */
  datatype ParsedTcp = ParsedTcp(hostname: string, port: Option<int>)

  datatype EndpointError =
    | BlankEndpoint
    | UnsupportedScheme(endpoint: string)
    | PortMismatch(endpointPort: int, overridePort: int)
    | PortOnlyForTcp
    | InvalidTcpUri(detail: string)
    | MissingHostname
    | TcpPath
    | MissingSerialPort
    | LeadingSlash
    | InvalidIpv6Host
    | CharactersAfterHost
    | MissingPort
    | NonNumericPort
    | PortNumberFormat(portText: string)
  {
    function Message(): string {
      match this
      case BlankEndpoint => "endpoint must not be blank"
      case UnsupportedScheme(e) => "unsupported endpoint scheme (expected tcp or rtu): " + e
      case PortMismatch(a, b) =>
        "TCP port mismatch: endpoint specifies " + IntToString(a) + " but --port specifies " + IntToString(b)
      case PortOnlyForTcp => "--port is only valid for TCP endpoints"
      case InvalidTcpUri(d) => "invalid tcp endpoint: " + d
      case MissingHostname => "tcp endpoint must include a hostname"
      case TcpPath => "tcp endpoint must not include a path"
      case MissingSerialPort => "rtu endpoint must include a serial port"
      case LeadingSlash => "tcp endpoint must not start with '/'"
      case InvalidIpv6Host => "tcp endpoint has an invalid IPv6 host"
      case CharactersAfterHost => "tcp endpoint has unexpected characters after host"
      case MissingPort => "tcp endpoint port is missing"
      case NonNumericPort => "tcp endpoint port must be numeric"
      // `Integer.parseInt` overflow: its NumberFormatException is itself an
      // IllegalArgumentException and propagates unchanged.
      case PortNumberFormat(t) => NumberFormatMessage(t, 10)
    }
  }

  /** What `java.net.URI` reports for a `tcp://` endpoint: `getHost()`
      (`None` for null), `getPort()` (-1 when absent) and `getRawPath()`. */
  datatype UriParts = UriParts(host: Option<string>, port: int, rawPath: Option<string>)

  /** The outcome of `URI.create`, which is outside this model: either the
      parts, or the message of the syntax error it throws. */
  datatype UriOutcome = UriParsed(parts: UriParts) | UriSyntaxError(message: string)

  predicate AllAsciiDigits(s: string) {
    forall i :: 0 <= i < |s| ==> IsAsciiDigit(s[i])
  }

  /** The record constructor of `ParsedTcp`, which rejects a blank hostname. */
  function MakeParsedTcp(hostname: string, port: Option<int>): (r: Result<ParsedTcp, EndpointError>)
    ensures r.Ok? <==> !IsBlank(hostname)
    ensures r.Ok? ==> r.value == ParsedTcp(hostname, port)
    ensures r.Err? ==> r.error == MissingHostname
  {
    if IsBlank(hostname) then Err(MissingHostname) else Ok(ParsedTcp(hostname, port))
  }

  /** `resolveTcp`: an explicit port must agree with the override; the port
      is the explicit one, else the override, else 502. */
  function ResolveTcp(parsed: ParsedTcp, portOverride: Option<int>): (r: Result<Endpoint, EndpointError>)
    ensures r.Ok? <==> parsed.port.None? || portOverride.None? || portOverride.value == parsed.port.value
    ensures r.Ok? ==> r.value.Tcp? && r.value.hostname == parsed.hostname
    ensures r.Ok? && parsed.port.Some? ==> r.value.port == parsed.port.value
    ensures r.Ok? && parsed.port.None? ==> r.value.port == portOverride.GetOr(DefaultTcpPort)
    ensures r.Err? ==> r.error == PortMismatch(parsed.port.value, portOverride.value)
  {
    match parsed.port
    case Some(p) =>
      if portOverride.Some? && portOverride.value != p then Err(PortMismatch(p, portOverride.value))
      else Ok(Tcp(parsed.hostname, p))
    case None =>
      Ok(Tcp(parsed.hostname, portOverride.GetOr(DefaultTcpPort)))
  }

  /** `resolveRtu`: an RTU endpoint takes no `--port`. */
  function ResolveRtu(serialPort: string, portOverride: Option<int>): (r: Result<Endpoint, EndpointError>)
    ensures r.Ok? <==> portOverride.None?
    ensures r.Ok? ==> r.value == Rtu(serialPort)
    ensures r.Err? ==> r.error == PortOnlyForTcp
  {
    if portOverride.Some? then Err(PortOnlyForTcp) else Ok(Rtu(serialPort))
  }

  /** The checks `parseTcpUri` makes on what `URI.create` reports: a
      non-blank host (brackets of an IPv6 literal stripped), a path that is
      absent, empty or `/`, and the port when it is not -1. */
  function ParseTcpUri(uri: UriOutcome): (r: Result<ParsedTcp, EndpointError>)
    ensures uri.UriSyntaxError? ==> r == Err(InvalidTcpUri(uri.message))
    ensures r.Ok? ==> !IsBlank(r.value.hostname)
    ensures r.Ok? ==> uri.UriParsed? && uri.parts.host.Some?
    ensures r.Ok? ==> (r.value.port.Some? <==> uri.parts.port >= 0)
    ensures r.Ok? && r.value.port.Some? ==> r.value.port.value == uri.parts.port
    ensures r.Ok? ==> uri.parts.rawPath.None? || uri.parts.rawPath.value in {"", "/"}
    ensures uri.UriParsed? && (uri.parts.host.None? || IsBlank(uri.parts.host.value)) ==> r == Err(MissingHostname)
    ensures uri.UriParsed? && uri.parts.host.Some? && !IsBlank(uri.parts.host.value)
            && uri.parts.rawPath.Some? && uri.parts.rawPath.value !in {"", "/"}
            ==> r == Err(TcpPath)
    ensures uri.UriParsed? && uri.parts.host.Some? && !IsBlank(uri.parts.host.value)
            && !StartsWith(uri.parts.host.value, "[")
            && (uri.parts.rawPath.None? || uri.parts.rawPath.value in {"", "/"})
            ==> r == Ok(ParsedTcp(uri.parts.host.value, if uri.parts.port >= 0 then Some(uri.parts.port) else None))
  {
    match uri
    case UriSyntaxError(message) => Err(InvalidTcpUri(message))
    case UriParsed(parts) =>
      if parts.host.None? || IsBlank(parts.host.value) then Err(MissingHostname)
      else
        var h := parts.host.value;
        var host := if StartsWith(h, "[") && |h| >= 2 && h[|h| - 1] == ']' then h[1..|h| - 1] else h;
        if parts.rawPath.Some? && parts.rawPath.value != "" && parts.rawPath.value != "/" then Err(TcpPath)
        else MakeParsedTcp(host, if parts.port >= 0 then Some(parts.port) else None)
  }

  /** `parseRtuUri`: everything after `rtu://`, verbatim and non-blank. */
  function ParseRtuUri(endpoint: string): (r: Result<string, EndpointError>)
    requires |endpoint| >= 6
    ensures r.Ok? <==> !IsBlank(endpoint[6..])
    ensures r.Ok? ==> r.value == endpoint[6..]
    ensures r.Err? ==> r.error == MissingSerialPort
  {
    var serialPort := endpoint[6..];
    if IsBlank(serialPort) then Err(MissingSerialPort) else Ok(serialPort)
  }

  /** `parseRtuScheme`: the text after `rtu:`, verbatim and non-blank. */
  function ParseRtuScheme(endpoint: string): (r: Result<string, EndpointError>)
    ensures r.Ok? <==> !IsBlank(endpoint)
    ensures r.Ok? ==> r.value == endpoint
    ensures r.Err? ==> r.error == MissingSerialPort
  {
    if IsBlank(endpoint) then Err(MissingSerialPort) else Ok(endpoint)
  }

  /** `Integer.parseInt` of an all-digit port text, then the record. */
  function ParsePort(host: string, portText: string): (r: Result<ParsedTcp, EndpointError>)
    requires AllAsciiDigits(portText) && portText != []
    ensures r.Ok? ==> r.value.hostname == host && r.value.port.Some? && 0 <= r.value.port.value <= IntMax
  {
    var p := ParseInt(portText, 10);
    if p.None? then Err(PortNumberFormat(portText))
    else
      assert DigitValue(portText[0]) >= 0;
      MakeParsedTcp(host, p)
  }

  /** The part of `parseHostPort` that reads what follows `]`: nothing, or
      `:` and a non-empty all-digit port. */
  function ParseAfterBracket(host: string, remainder: string): (r: Result<ParsedTcp, EndpointError>)
    requires !IsBlank(host)
    ensures r.Ok? ==> r.value.hostname == host
    ensures r.Ok? <==>
              (remainder == []
               || (StartsWith(remainder, ":") && |remainder| > 1
                   && AllAsciiDigits(remainder[1..]) && ParseInt(remainder[1..], 10).Some?))
  {
    if remainder == [] then MakeParsedTcp(host, None)
    else if !StartsWith(remainder, ":") then Err(CharactersAfterHost)
    else
      var portText := remainder[1..];
      if portText == [] then Err(MissingPort)
      else if !AllAsciiDigits(portText) then Err(NonNumericPort)
      else ParsePort(host, portText)
  }

  /** `parseHostPort`. A bracketed host runs to the first `]` and may be
      followed only by `:` and a non-empty all-digit port. An unbracketed
      string is split only at its single colon, when that colon is neither
      first nor last and digits alone follow it; otherwise the whole string
      is the hostname. */
  function ParseHostPort(endpoint: string): (r: Result<ParsedTcp, EndpointError>)
    ensures r.Ok? ==> !IsBlank(r.value.hostname)
  {
    if StartsWith(endpoint, "[") then
      var closing := IndexOf(endpoint, ']');
      if closing < 0 then Err(InvalidIpv6Host)
      else
        var host := endpoint[1..closing];
        if IsBlank(host) then Err(MissingHostname)
        else
          ParseAfterBracket(host, endpoint[closing + 1..])
    else
      var firstColon := IndexOf(endpoint, ':');
      var lastColon := LastIndexOf(endpoint, ':');
      if 0 < firstColon && firstColon == lastColon && lastColon < |endpoint| - 1
         && AllAsciiDigits(endpoint[lastColon + 1..])
      then
        var host := endpoint[..lastColon];
        if IsBlank(host) then Err(MissingHostname) else ParsePort(host, endpoint[lastColon + 1..])
      else
        MakeParsedTcp(endpoint, None)
  }

  /** `parseTcpScheme`: the text after `tcp:` must be non-blank and must not
      start with `/`. */
  function ParseTcpScheme(endpoint: string): (r: Result<ParsedTcp, EndpointError>)
    ensures IsBlank(endpoint) ==> r == Err(MissingHostname)
    ensures !IsBlank(endpoint) && StartsWith(endpoint, "/") ==> r == Err(LeadingSlash)
    ensures r.Ok? ==> !IsBlank(r.value.hostname)
  {
    if IsBlank(endpoint) then Err(MissingHostname)
    else if StartsWith(endpoint, "/") then Err(LeadingSlash)
    else ParseHostPort(endpoint)
  }

  function BindTcp(parsed: Result<ParsedTcp, EndpointError>, portOverride: Option<int>): (r: Result<Endpoint, EndpointError>)
    ensures parsed.Err? ==> r == Err(parsed.error)
    ensures parsed.Ok? ==> r == ResolveTcp(parsed.value, portOverride)
  {
    if parsed.Err? then Err(parsed.error) else ResolveTcp(parsed.value, portOverride)
  }

  function BindRtu(parsed: Result<string, EndpointError>, portOverride: Option<int>): (r: Result<Endpoint, EndpointError>)
    ensures parsed.Err? ==> r == Err(parsed.error)
    ensures parsed.Ok? ==> r == ResolveRtu(parsed.value, portOverride)
  {
    if parsed.Err? then Err(parsed.error) else ResolveRtu(parsed.value, portOverride)
  }

  /** The scheme an endpoint is read with, tested on its lower-cased form in
      this order. */
  datatype Scheme = TcpUri | RtuUri | TcpText | RtuText | Unsupported | BareHost

  function SchemeOf(lower: string): (k: Scheme)
    ensures k == TcpUri <==> StartsWith(lower, "tcp://")
    ensures k == RtuUri <==> StartsWith(lower, "rtu://") && !StartsWith(lower, "tcp://")
    ensures k == TcpText ==> StartsWith(lower, "tcp:")
    ensures k == RtuText ==> StartsWith(lower, "rtu:")
    ensures k in {TcpText, RtuText, Unsupported, BareHost} ==> !StartsWith(lower, "tcp://") && !StartsWith(lower, "rtu://")
    ensures k in {Unsupported, BareHost} ==> !StartsWith(lower, "tcp:") && !StartsWith(lower, "rtu:")
    ensures k == Unsupported ==> Contains(lower, "://")
    ensures k == BareHost ==> !Contains(lower, "://")
  {
    if StartsWith(lower, "tcp://") then TcpUri
    else if StartsWith(lower, "rtu://") then RtuUri
    else if StartsWith(lower, "tcp:") then TcpText
    else if StartsWith(lower, "rtu:") then RtuText
    else if Contains(lower, "://") then Unsupported
    else BareHost
  }

  /** The part of `parse` after the blank check, on the trimmed endpoint. */
  function ParseTrimmed(trimmed: string, portOverride: Option<int>, uriCreate: string -> UriOutcome): (r: Result<Endpoint, EndpointError>)
    ensures r.Err? ==> r.error != BlankEndpoint
    ensures r.Ok? && r.value.Tcp? ==> !IsBlank(r.value.hostname)
    ensures r.Ok? && r.value.Rtu? ==> !IsBlank(r.value.serialPort)
    ensures r.Ok? && r.value.Rtu? ==> portOverride.None?
  {
    match SchemeOf(Lower(trimmed))
    case TcpUri => BindTcp(ParseTcpUri(uriCreate(trimmed)), portOverride)
    case RtuUri => BindRtu(ParseRtuUri(trimmed), portOverride)
    case TcpText => BindTcp(ParseTcpScheme(trimmed[4..]), portOverride)
    case RtuText => BindRtu(ParseRtuScheme(trimmed[4..]), portOverride)
    case Unsupported => Err(UnsupportedScheme(trimmed))
    case BareHost => BindTcp(MakeParsedTcp(trimmed, None), portOverride)
  }

  /** `parse`. `rawEndpoint` is `None` for a null reference; `uriCreate`
      stands for `URI.create`, applied to the trimmed endpoint. */
  function Parse(rawEndpoint: Option<string>, portOverride: Option<int>, uriCreate: string -> UriOutcome): (r: Result<Endpoint, EndpointError>)
    ensures r == Err(BlankEndpoint) <==> rawEndpoint.None? || IsBlank(rawEndpoint.value)
    ensures r.Ok? && r.value.Tcp? ==> !IsBlank(r.value.hostname)
    ensures r.Ok? && r.value.Rtu? ==> !IsBlank(r.value.serialPort)
    ensures r.Ok? && r.value.Rtu? ==> portOverride.None?
  {
    if rawEndpoint.None? || IsBlank(rawEndpoint.value) then Err(BlankEndpoint)
    else ParseTrimmed(Trim(rawEndpoint.value), portOverride, uriCreate)
  }

  // ---------------------------------------------------------------------
  // Properties
  // ---------------------------------------------------------------------

  /** What `parseHostPort` returns is a slice of its input: for a bracketed
      endpoint the text strictly between `[` and the first `]`; otherwise
      either the whole input, or the part before its only colon when a port
      follows that colon. */
  lemma HostPortShape(endpoint: string)
    requires ParseHostPort(endpoint).Ok?
    ensures var pt := ParseHostPort(endpoint).value;
      StartsWith(endpoint, "[") ==>
        |pt.hostname| + 2 <= |endpoint| && endpoint[1..|pt.hostname| + 1] == pt.hostname
        && endpoint[|pt.hostname| + 1] == ']' && ']' !in pt.hostname
    ensures var pt := ParseHostPort(endpoint).value;
      !StartsWith(endpoint, "[") && pt.port.None? ==> pt.hostname == endpoint
    ensures var pt := ParseHostPort(endpoint).value;
      !StartsWith(endpoint, "[") && pt.port.Some? ==>
        |pt.hostname| + 1 < |endpoint| && pt.hostname == endpoint[..|pt.hostname|]
        && endpoint[|pt.hostname|] == ':' && ':' !in pt.hostname
        && ':' !in endpoint[|pt.hostname| + 1..] && AllAsciiDigits(endpoint[|pt.hostname| + 1..])
  {
    var pt := ParseHostPort(endpoint).value;
    if StartsWith(endpoint, "[") {
      var closing := IndexOf(endpoint, ']');
      assert pt.hostname == endpoint[1..closing];
      assert forall j :: 1 <= j < closing ==> endpoint[j] != ']';
    } else if pt.port.Some? {
      var lastColon := LastIndexOf(endpoint, ':');
      assert pt.hostname == endpoint[..lastColon];
    }
  }

  /** A bracketed endpoint fails without a `]`, and with a blank host
      between the brackets. */
  lemma BracketedErrors(endpoint: string)
    requires StartsWith(endpoint, "[")
    ensures ']' !in endpoint ==> ParseHostPort(endpoint) == Err(InvalidIpv6Host)
    ensures ']' in endpoint && IsBlank(endpoint[1..IndexOf(endpoint, ']')]) ==> ParseHostPort(endpoint) == Err(MissingHostname)
  {
    if ']' in endpoint {
      var k :| 0 <= k < |endpoint| && endpoint[k] == ']';
      assert IndexOf(endpoint, ']') >= 0;
    }
  }

  /** A host that `URI` reports in brackets loses them, and the port and an
      empty or root path are kept as reported. */
  lemma TcpUriStripsBrackets(host: string, port: int, rawPath: Option<string>)
    requires !IsBlank(host)
    requires rawPath.None? || rawPath.value in {"", "/"}
    ensures ParseTcpUri(UriParsed(UriParts(Some("[" + host + "]"), port, rawPath)))
         == Ok(ParsedTcp(host, if port >= 0 then Some(port) else None))
  {
    var h := "[" + host + "]";
    assert h[1..|h| - 1] == host;
    assert !IsBlank(h) by { assert !IsWhitespace(h[0]); }
  }

  /** The text `host[:port]` with an IPv6-style host (one holding a colon) in
      brackets: the textual form `parseHostPort` reads. */
  function HostPortText(host: string, port: Option<nat>): string {
    (if ':' in host then "[" + host + "]" else host)
    + (if port.Some? then ":" + ToDigits(port.value, 10) else "")
  }

  lemma DecimalDigitsNoColon(n: nat)
    ensures AllAsciiDigits(ToDigits(n, 10)) && ':' !in ToDigits(n, 10)
  {
    var ds := ToDigits(n, 10);
    forall i | 0 <= i < |ds| ensures IsAsciiDigit(ds[i]) {
      assert 0 <= DigitValue(ds[i]) < 10;
    }
  }

  lemma ParsePortOfDigits(host: string, n: nat)
    requires !IsBlank(host) && n <= IntMax
    ensures AllAsciiDigits(ToDigits(n, 10))
    ensures ParsePort(host, ToDigits(n, 10)) == Ok(ParsedTcp(host, Some(n)))
  {
    var ds := ToDigits(n, 10);
    DecimalDigitsNoColon(n);
    DigitsRoundTrip(n, 10);
    assert ParseInt(ds, 10) == Some(n) by {
      assert DigitValue(ds[0]) >= 0;
    }
  }

  /** An unbracketed host without colons, with or without a port, reads back. */
  lemma {:induction false} PlainHostPortRoundTrip(host: string, port: Option<nat>)
    requires !IsBlank(host) && ':' !in host && !StartsWith(host, "[")
    requires port.Some? ==> port.value <= IntMax
    ensures ParseHostPort(HostPortText(host, port)) == Ok(ParsedTcp(host, port))
  {
    var text := HostPortText(host, port);
    if port.None? {
      assert text == host;
      IndexOfAbsent(host, ':');
    } else {
      var ds := ToDigits(port.value, 10);
      DecimalDigitsNoColon(port.value);
      assert text == host + [':'] + ds;
      assert text[..1] == host[..1];
      IndexOfAfter(host, ':', ds);
      LastIndexOfBefore(host, ':', ds);
      assert text[..|host|] == host && text[|host| + 1..] == ds;
      assert host != [];
      ParsePortOfDigits(host, port.value);
    }
  }

  lemma BracketedText(host: string, tail: string)
    requires !IsBlank(host) && ']' !in host
    ensures ParseHostPort("[" + host + "]" + tail) == ParseAfterBracket(host, tail)
  {
    var text := "[" + host + "]" + tail;
    assert text == "[" + host + [']'] + tail;
    assert ']' !in "[" + host;
    IndexOfAfter("[" + host, ']', tail);
    assert text[1..|host| + 1] == host;
    assert text[|host| + 2..] == tail;
  }

  lemma AfterBracketPort(host: string, n: nat)
    requires !IsBlank(host) && n <= IntMax
    ensures ParseAfterBracket(host, ":" + ToDigits(n, 10)) == Ok(ParsedTcp(host, Some(n)))
  {
    var ds := ToDigits(n, 10);
    assert (":" + ds)[1..] == ds;
    ParsePortOfDigits(host, n);
  }

  /** A bracketed host, with or without a port, reads back without its
      brackets. */
  lemma BracketedHostPortRoundTrip(host: string, port: Option<nat>)
    requires !IsBlank(host) && ']' !in host && ':' in host
    requires port.Some? ==> port.value <= IntMax
    ensures ParseHostPort(HostPortText(host, port)) == Ok(ParsedTcp(host, port))
  {
    var tail := if port.Some? then ":" + ToDigits(port.value, 10) else "";
    assert HostPortText(host, port) == "[" + host + "]" + tail;
    BracketedText(host, tail);
    if port.Some? {
      AfterBracketPort(host, port.value);
    }
  }

  /** `HostPortText` and `parseHostPort` are inverse on non-blank hosts that
      hold no `]` and do not start with `[`. */
  lemma HostPortRoundTrip(host: string, port: Option<nat>)
    requires !IsBlank(host) && ']' !in host && !StartsWith(host, "[")
    requires port.Some? ==> port.value <= IntMax
    ensures ParseHostPort(HostPortText(host, port)) == Ok(ParsedTcp(host, port))
  {
    if ':' in host {
      BracketedHostPortRoundTrip(host, port);
    } else {
      PlainHostPortRoundTrip(host, port);
    }
  }

  /** An endpoint text that `trim` leaves alone and that is not blank. */
  predicate Trimmed(s: string) {
    s != [] && !Trimmable(s[0]) && !Trimmable(s[|s| - 1]) && !IsBlank(s)
  }

  lemma ParseOfTrimmed(s: string, portOverride: Option<int>, uriCreate: string -> UriOutcome)
    requires Trimmed(s)
    ensures Parse(Some(s), portOverride, uriCreate) == ParseTrimmed(s, portOverride, uriCreate)
  {
    TrimNoop(s);
  }

  /** The endpoint is trimmed before any prefix test: padding a trimmed,
      non-blank endpoint with characters up to U+0020 changes nothing. */
  lemma ParseTrimsFirst(pre: string, s: string, post: string, portOverride: Option<int>, uriCreate: string -> UriOutcome)
    requires forall i :: 0 <= i < |pre| ==> Trimmable(pre[i])
    requires forall i :: 0 <= i < |post| ==> Trimmable(post[i])
    requires Trimmed(s)
    ensures Parse(Some(pre + s + post), portOverride, uriCreate) == Parse(Some(s), portOverride, uriCreate)
  {
    NotBlankInside(pre, s, post);
    TrimPadded(pre, s, post);
    ParseOfTrimmed(s, portOverride, uriCreate);
  }

  /** An endpoint with no `tcp:` or `rtu:` prefix (in any case) and no `://`
      is a TCP hostname taken whole, never split at a colon, with the
      override port or 502. */
  lemma ParseBareHost(s: string, portOverride: Option<int>, uriCreate: string -> UriOutcome)
    requires Trimmed(s)
    requires !StartsWith(Lower(s), "tcp:") && !StartsWith(Lower(s), "rtu:") && !Contains(Lower(s), "://")
    ensures Parse(Some(s), portOverride, uriCreate) == Ok(Tcp(s, portOverride.GetOr(DefaultTcpPort)))
  {
    ParseOfTrimmed(s, portOverride, uriCreate);
    SchemeOfUnprefixed(Lower(s));
    BareHostTrimmed(s, portOverride, uriCreate);
  }

  lemma SchemeOfUnprefixed(lower: string)
    requires !StartsWith(lower, "tcp:") && !StartsWith(lower, "rtu:")
    ensures SchemeOf(lower) == if Contains(lower, "://") then Unsupported else BareHost
  {
  }

  lemma BareHostTrimmed(s: string, portOverride: Option<int>, uriCreate: string -> UriOutcome)
    requires SchemeOf(Lower(s)) == BareHost && !IsBlank(s)
    ensures ParseTrimmed(s, portOverride, uriCreate) == Ok(Tcp(s, portOverride.GetOr(DefaultTcpPort)))
  {
  }

  /** Any other scheme written with `://` is refused. */
  lemma ParseUnsupportedScheme(s: string, portOverride: Option<int>, uriCreate: string -> UriOutcome)
    requires Trimmed(s)
    requires !StartsWith(Lower(s), "tcp:") && !StartsWith(Lower(s), "rtu:") && Contains(Lower(s), "://")
    ensures Parse(Some(s), portOverride, uriCreate) == Err(UnsupportedScheme(s))
  {
    ParseOfTrimmed(s, portOverride, uriCreate);
    SchemeOfUnprefixed(Lower(s));
  }

  /** The serial port named by an `rtu:` or `rtu://` endpoint. */
  function RtuSerialText(s: string): string
    requires StartsWith(Lower(s), "rtu:")
  {
    if StartsWith(Lower(s), "rtu://") then s[6..] else s[4..]
  }

  /** An `rtu:` or `rtu://` endpoint (prefix in any case) names the rest of
      the text verbatim as its serial port. A blank one is refused first;
      then any `--port` is refused. */
  lemma ParseRtu(s: string, portOverride: Option<int>, uriCreate: string -> UriOutcome)
    requires Trimmed(s) && StartsWith(Lower(s), "rtu:")
    ensures Parse(Some(s), portOverride, uriCreate) ==
      if IsBlank(RtuSerialText(s)) then Err(MissingSerialPort)
      else if portOverride.Some? then Err(PortOnlyForTcp)
      else Ok(Rtu(RtuSerialText(s)))
  {
    ParseOfTrimmed(s, portOverride, uriCreate);
    SchemeOfRtu(Lower(s));
    RtuTrimmed(s, portOverride, uriCreate);
  }

  lemma SchemeOfRtu(lower: string)
    requires StartsWith(lower, "rtu:")
    ensures SchemeOf(lower) == if StartsWith(lower, "rtu://") then RtuUri else RtuText
  {
    assert lower[0] == 'r';
  }

  lemma RtuTrimmed(s: string, portOverride: Option<int>, uriCreate: string -> UriOutcome)
    requires StartsWith(Lower(s), "rtu:")
    requires SchemeOf(Lower(s)) == if StartsWith(Lower(s), "rtu://") then RtuUri else RtuText
    ensures ParseTrimmed(s, portOverride, uriCreate) ==
      if IsBlank(RtuSerialText(s)) then Err(MissingSerialPort)
      else if portOverride.Some? then Err(PortOnlyForTcp)
      else Ok(Rtu(RtuSerialText(s)))
  {
  }

  /** `tcp:` in any case, then `host[:port]`: the written port, if any,
      must agree with `--port`. */
  lemma ParseTcpTextEndpoint(prefix: string, host: string, port: Option<nat>, portOverride: Option<int>, uriCreate: string -> UriOutcome)
    requires Lower(prefix) == "tcp:"
    requires !IsBlank(host) && ']' !in host && !StartsWith(host, "[") && !StartsWith(host, "/")
    requires !Trimmable(host[|host| - 1])
    requires port.Some? ==> port.value <= IntMax
    ensures Parse(Some(prefix + HostPortText(host, port)), portOverride, uriCreate)
         == ResolveTcp(ParsedTcp(host, port), portOverride)
  {
    var text := HostPortText(host, port);
    var s := prefix + text;
    TcpTextShape(prefix, host, port);
    ParseOfTrimmed(s, portOverride, uriCreate);
    TcpTextScheme(prefix, text);
    TcpTextTrimmed(s, portOverride, uriCreate);
    assert s[4..] == text;
    HostPortRoundTrip(host, port);
  }

  lemma TcpTextTrimmed(s: string, portOverride: Option<int>, uriCreate: string -> UriOutcome)
    requires SchemeOf(Lower(s)) == TcpText
    ensures |s| >= 4
    ensures ParseTrimmed(s, portOverride, uriCreate) == BindTcp(ParseTcpScheme(s[4..]), portOverride)
  {
  }

  lemma TcpTextShape(prefix: string, host: string, port: Option<nat>)
    requires Lower(prefix) == "tcp:"
    requires !IsBlank(host) && !StartsWith(host, "[") && !StartsWith(host, "/")
    requires !Trimmable(host[|host| - 1])
    ensures Trimmed(prefix + HostPortText(host, port))
    ensures !IsBlank(HostPortText(host, port)) && !StartsWith(HostPortText(host, port), "/")
  {
    var text := HostPortText(host, port);
    var s := prefix + text;
    assert LowerChar(prefix[0]) == 't';
    assert !IsWhitespace(prefix[0]);
    if port.Some? {
      var ds := ToDigits(port.value, 10);
      assert s[|s| - 1] == ds[|ds| - 1];
      assert DigitValue(ds[|ds| - 1]) >= 0;
    } else if ':' in host {
      assert s[|s| - 1] == ']';
    } else {
      assert s[|s| - 1] == host[|host| - 1];
    }
    assert !IsWhitespace(s[0]);
    if ':' in host {
      NotBlankInside("[", host, "]" + (if port.Some? then ":" + ToDigits(port.value, 10) else ""));
      assert text[0] == '[';
    } else {
      NotBlankInside("", host, if port.Some? then ":" + ToDigits(port.value, 10) else "");
      assert "" + host + (if port.Some? then ":" + ToDigits(port.value, 10) else "") == text;
      assert text[0] == host[0];
    }
  }

  lemma TcpTextScheme(prefix: string, text: string)
    requires Lower(prefix) == "tcp:" && text != [] && text[0] != '/'
    ensures SchemeOf(Lower(prefix + text)) == TcpText
  {
    LowerConcat(prefix, text);
    var l := Lower(prefix + text);
    assert l[..4] == "tcp:";
    assert l[4] == LowerChar(text[0]);
  }
}
