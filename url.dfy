/** Utilities.ParseUrl: splits an http, https or file URL into scheme,
    host-and-port, host, port and path. */
module Url {
  import opened Sequences

  /** The record UrlParseResult: every field is set once, at construction. */
  datatype UrlParseResult = UrlParseResult(
    scheme: string,
    url: string,
    hostAndPort: string,
    host: string,
    port: int,
    path: string)

  /** The exceptions ParseUrl lets escape: InvalidDataException for an
      unknown scheme, and FormatException / OverflowException from int.Parse. */
  datatype ParseError = InvalidData | Format | Overflow

  datatype Result<T> = Ok(value: T) | Err(error: ParseError)

  /** int.MaxValue: int.Parse refuses anything larger. */
  const Int32Max: int := 0x7fff_ffff

  const Schemes: set<string> := {"https", "http", "file"}

  predicate IsDigit(c: char)
  {
    '0' <= c <= '9'
  }

  predicate AllDigits(s: string)
  {
    forall i :: 0 <= i < |s| ==> IsDigit(s[i])
  }

  /** Value of a string of decimal digits, most significant first. */
  function DigitsValue(s: string): nat
    requires AllDigits(s)
    decreases |s|
  {
    if s == [] then 0
    else DigitsValue(s[..|s| - 1]) * 10 + (s[|s| - 1] as int - '0' as int)
  }

  /** int.Parse restricted to unsigned decimal text. */
  function ParseInt(s: string): (r: Result<int>)
    ensures r.Ok? <==> s != [] && AllDigits(s) && DigitsValue(s) <= Int32Max
    ensures r.Ok? ==> 0 <= r.value <= Int32Max && r.value == DigitsValue(s)
    ensures r == Err(Overflow) <==> s != [] && AllDigits(s) && Int32Max < DigitsValue(s)
    ensures r.Err? ==> r.error != InvalidData
  {
    if s == [] || !AllDigits(s) then Err(Format)
    else if DigitsValue(s) > Int32Max then Err(Overflow)
    else Ok(DigitsValue(s))
  }

  /** Shortest decimal text of `n`: the inverse of DigitsValue. */
  function ShowDecimal(n: nat): (s: string)
    decreases n
  {
    if n < 10 then ['0' + n as char]
    else ShowDecimal(n / 10) + ['0' + (n % 10) as char]
  }

  lemma {:induction false} ShowDecimalDigits(n: nat)
    ensures ShowDecimal(n) != [] && AllDigits(ShowDecimal(n))
    ensures DigitsValue(ShowDecimal(n)) == n
    decreases n
  {
    var s := ShowDecimal(n);
    if n >= 10 {
      ShowDecimalDigits(n / 10);
      assert s[..|s| - 1] == ShowDecimal(n / 10);
    }
  }

  /** Port text written by ShowDecimal parses back to the same port. */
  lemma ParseIntShowDecimal(n: nat)
    requires n <= Int32Max
    ensures ParseInt(ShowDecimal(n)) == Ok(n)
  {
    ShowDecimalDigits(n);
  }

  /** The port used when the URL names none: 80 for http, 443 otherwise. */
  function DefaultPort(scheme: string): (p: int)
    ensures p == 80 || p == 443
    ensures p == 80 <==> scheme == "http"
  {
    if scheme == "http" then 80 else 443
  }

  /** True when ParseUrl recognises the URL's scheme prefix. */
  predicate HasKnownScheme(url: string)
  {
    StartsWith(url, "https://") || StartsWith(url, "http://") || StartsWith(url, "file://")
  }

  /** The text before the first `c` of `s` and the rest from that `c` on:
      `s[..s.IndexOf(c)]` and `s[s.IndexOf(c)..]`, or all of `s` and nothing
      when `c` does not occur. */
  function SplitAtFirst(s: string, c: char): (parts: (string, string))
    ensures c !in parts.0 && s == parts.0 + parts.1
    ensures parts.1 != [] ==> parts.1[0] == c
  {
    var i := IndexOf(s, c);
    if i == -1 then (s, []) else (s[..i], s[i..])
  }

  /** Host-and-port stops before the first '/' of the text after the
      scheme prefix, and the path starts there ("/" when there is none). */
  predicate HostPathRule(rest: string, p: UrlParseResult)
  {
    '/' !in p.hostAndPort && p.path != [] && p.path[0] == '/' &&
    if '/' in rest then rest == p.hostAndPort + p.path
    else rest == p.hostAndPort && p.path == "/"
  }

  /** The host stops before the first ':' of host-and-port, and the port is
      the number after it, or the scheme's default when there is no ':'. */
  predicate HostPortRule(p: UrlParseResult)
  {
    ':' !in p.host &&
    if ':' in p.hostAndPort then
      |p.host| < |p.hostAndPort| &&
      p.hostAndPort == p.host + ":" + p.hostAndPort[|p.host| + 1..]
      && ParseInt(p.hostAndPort[|p.host| + 1..]) == Ok(p.port)
    else p.host == p.hostAndPort && p.port == DefaultPort(p.scheme)
  }

  /** The text after the scheme prefix of a URL ParseUrl recognises:
      `url.Substring(prefix.Length)`. The `else` branch serves both
      "http://" and "file://", which have the same length. */
  function KnownRemainder(url: string): (rest: string)
    requires HasKnownScheme(url)
    ensures |rest| + 7 <= |url| && rest == url[|url| - |rest|..]
    // exactly the matched prefix is removed
    ensures url[..|url| - |rest|] in {"https://", "http://", "file://"}
  {
    if StartsWith(url, "https://") then url[|"https://"|..]
    else url[|"http://"|..]
  }

  /** int.Parse fails: host-and-port (the text before the first '/') holds a
      ':', and the text after its first ':' is not an acceptable port. */
  predicate PortParseFails(rest: string)
  {
    var hostAndPort := SplitAtFirst(rest, '/').0;
    ':' in hostAndPort && ParseInt(SplitAtFirst(hostAndPort, ':').1[1..]).Err?
  }

  function ParseUrl(url: string): (r: Result<UrlParseResult>)
    // only the three scheme prefixes are accepted
    ensures r == Err(InvalidData) <==> !HasKnownScheme(url)
    // the scheme is the matched prefix and the URL is kept as given
    ensures r.Ok? ==> r.value.url == url && r.value.scheme in Schemes
                      && StartsWith(url, r.value.scheme + "://")
    ensures r.Ok? ==> HostPathRule(url[|r.value.scheme| + 3..], r.value)
    ensures r.Ok? ==> HostPortRule(r.value)
    // with a known scheme, only the port text can make it fail
    ensures HasKnownScheme(url) ==> (r.Err? <==> PortParseFails(KnownRemainder(url)))
  {
    if StartsWith(url, "https://") then ParseAfterScheme(url, "https")
    else if StartsWith(url, "http://") then ParseAfterScheme(url, "http")
    else if StartsWith(url, "file://") then ParseAfterScheme(url, "file")
    else Err(InvalidData)
  }

  /** ParseUrl once `scheme + "://"` is known to start the URL: strip it
      (url.Substring(prefix.Length)) and split the rest. */
  function ParseAfterScheme(url: string, scheme: string): (r: Result<UrlParseResult>)
    requires StartsWith(url, scheme + "://")
    ensures r.Err? ==> r.error != InvalidData
    ensures r.Ok? ==> r.value.url == url && r.value.scheme == scheme
    ensures r.Ok? ==> HostPathRule(url[|scheme| + 3..], r.value)
    ensures r.Ok? ==> HostPortRule(r.value)
    ensures r.Err? <==> PortParseFails(url[|scheme| + 3..])
  {
    SplitRemainderFails(url, scheme, url[|scheme + "://"|..]);
    SplitRemainder(url, scheme, url[|scheme + "://"|..])
  }

  /** Everything ParseUrl does once the scheme prefix is stripped: split the
      remainder at its first '/', then host-and-port at its first ':'. */
  function SplitRemainder(url: string, scheme: string, remainder: string): (r: Result<UrlParseResult>)
    ensures r.Err? ==> r.error != InvalidData
    ensures r.Ok? ==> r.value.url == url && r.value.scheme == scheme
    ensures r.Ok? ==> HostPathRule(remainder, r.value)
    ensures r.Ok? ==> HostPortRule(r.value)
  {
    var (hostAndPort, tail) := SplitAtFirst(remainder, '/');
    SplitHostAndPort(url, scheme, hostAndPort, if tail == [] then "/" else tail)
  }

  /** The second split of ParseUrl: host-and-port at its first ':', the port
      parsed from the text after it or else the scheme's default. */
  function SplitHostAndPort(url: string, scheme: string, hostAndPort: string, path: string): (r: Result<UrlParseResult>)
    ensures r.Err? ==> r.error != InvalidData
    ensures r.Ok? ==> r.value.url == url && r.value.scheme == scheme
                      && r.value.hostAndPort == hostAndPort && r.value.path == path
    ensures r.Ok? ==> HostPortRule(r.value)
  {
    var (host, portPart) := SplitAtFirst(hostAndPort, ':');
    if portPart == [] then
      assert host == hostAndPort;
      Ok(UrlParseResult(scheme, url, hostAndPort, host, DefaultPort(scheme), path))
    else
      assert hostAndPort[|host|] == ':' && hostAndPort[|host| + 1..] == portPart[1..];
      assert hostAndPort == host + ":" + portPart[1..];
      match ParseInt(portPart[1..])
      case Err(e) => Err(e)
      case Ok(port) => Ok(UrlParseResult(scheme, url, hostAndPort, host, port, path))
  }

  /** SplitRemainder fails exactly when the port text fails to parse. */
  lemma SplitRemainderFails(url: string, scheme: string, remainder: string)
    ensures SplitRemainder(url, scheme, remainder).Err? <==> PortParseFails(remainder)
  {
    var (hostAndPort, tail) := SplitAtFirst(remainder, '/');
    var (host, portPart) := SplitAtFirst(hostAndPort, ':');
    if portPart != [] {
      assert SplitRemainder(url, scheme, remainder).Err? <==> ParseInt(portPart[1..]).Err?;
    }
  }

  /** Splitting `a + b` at the first `c` gives back `a` and `b` when `a` holds
      no `c` and `b` is empty or starts with one. */
  lemma SplitAtFirstOfParts(a: string, b: string, c: char)
    requires c !in a
    requires b == [] || b[0] == c
    ensures SplitAtFirst(a + b, c) == (a, b)
  {
    var s := a + b;
    var i := IndexOf(s, c);
    if b != [] {
      assert s[|a|] == c;
      assert s[..i] == a && s[i..] == b;
    } else {
      assert s == a;
    }
  }

  /** Which branch of ParseUrl a URL written with a known scheme takes. */
  lemma ParseUrlOfScheme(scheme: string, rest: string)
    requires scheme in Schemes
    ensures ParseUrl(scheme + "://" + rest) == SplitRemainder(scheme + "://" + rest, scheme, rest)
  {
    var url := scheme + "://" + rest;
    var prefix := scheme + "://";
    assert url[..|prefix|] == prefix && url[|prefix|..] == rest;
    if scheme == "https" {
      assert StartsWith(url, "https://");
    } else if scheme == "http" {
      assert url[4] == ':';
      assert !StartsWith(url, "https://");
      assert StartsWith(url, "http://");
    } else {
      assert url[0] == 'f';
      assert !StartsWith(url, "https://") && !StartsWith(url, "http://");
      assert StartsWith(url, "file://");
    }
  }

  /** The result ParseUrl gives for a URL with an explicit port. */
  function WithPortResult(url: string, scheme: string, host: string, portText: string, path: string): Result<UrlParseResult>
  {
    match ParseInt(portText)
    case Ok(n) => Ok(UrlParseResult(scheme, url, host + ":" + portText, host, n, if path == [] then "/" else path))
    case Err(e) => Err(e)
  }

  lemma SplitRemainderWithPort(url: string, scheme: string, host: string, portText: string, path: string)
    requires '/' !in host && ':' !in host && '/' !in portText
    requires path == [] || path[0] == '/'
    ensures SplitRemainder(url, scheme, host + ":" + portText + path) == WithPortResult(url, scheme, host, portText, path)
  {
    var hostAndPort := host + ":" + portText;
    SplitAtFirstOfParts(hostAndPort, path, '/');
    assert hostAndPort == host + (":" + portText);
    SplitAtFirstOfParts(host, ":" + portText, ':');
    assert (":" + portText)[1..] == portText;
  }

  /** Round trip with an explicit port: a URL assembled from a scheme, a host
      without '/' or ':', a port text and a path parses back into those parts;
      it fails exactly when int.Parse fails on the port text. */
  lemma {:induction false} ParseUrlWithPort(scheme: string, host: string, portText: string, path: string)
    requires scheme in Schemes
    requires '/' !in host && ':' !in host && '/' !in portText
    requires path == [] || path[0] == '/'
    ensures var url := scheme + "://" + host + ":" + portText + path;
      ParseUrl(url) == WithPortResult(url, scheme, host, portText, path)
  {
    var rest := host + ":" + portText + path;
    var url := scheme + "://" + host + ":" + portText + path;
    assert url == scheme + "://" + rest;
    ParseUrlOfScheme(scheme, rest);
    SplitRemainderWithPort(url, scheme, host, portText, path);
  }

  /** Round trip without a port: the port is the scheme's default. */
  lemma {:induction false} ParseUrlWithoutPort(scheme: string, host: string, path: string)
    requires scheme in Schemes
    requires '/' !in host && ':' !in host
    requires path == [] || path[0] == '/'
    ensures var url := scheme + "://" + host + path;
      ParseUrl(url) == Ok(UrlParseResult(scheme, url, host, host, DefaultPort(scheme), if path == [] then "/" else path))
  {
    var url := scheme + "://" + host + path;
    assert url == scheme + "://" + (host + path);
    ParseUrlOfScheme(scheme, host + path);
    SplitAtFirstOfParts(host, path, '/');
    assert host + [] == host;
    SplitAtFirstOfParts(host, [], ':');
  }

  /** A URL assembled with a port number written in decimal reports that port. */
  lemma ParseUrlPortNumber(scheme: string, host: string, port: nat, path: string)
    requires scheme in Schemes
    requires '/' !in host && ':' !in host
    requires path == [] || path[0] == '/'
    requires port <= Int32Max
    ensures var url := scheme + "://" + host + ":" + ShowDecimal(port) + path;
      ParseUrl(url).Ok? && ParseUrl(url).value.port == port && ParseUrl(url).value.host == host
  {
    ParseIntShowDecimal(port);
    ShowDecimalDigits(port);
    ParseUrlWithPort(scheme, host, ShowDecimal(port), path);
  }
}
