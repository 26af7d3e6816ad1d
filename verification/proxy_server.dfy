/** The m3u8 CORS proxy: the per-origin rate limiter configured by CORSANYWHERE_RATELIMIT,
    the CORS response headers, redirect handling and cookie stripping on proxied
    responses, and the playlist rewrite that routes every URI of an HLS playlist back
    through the proxy. Sockets, streams and the regular-expression engine are not part
    of the model: a compiled host pattern is given as its test function. */
module ProxyServer {

  import opened Wrappers
  import opened Text
  import opened Numbers
  import opened Url
  import opened Headers

  // ---- the rate-limit configuration ----

  /** The characters `.` in a regular expression does not match. */
  predicate IsLineTerminator(c: char) {
    c == '\n' || c == '\r' || c == '\U{2028}' || c == '\U{2029}'
  }

  predicate NoLineTerminator(s: string) {
    forall i :: 0 <= i < |s| ==> !IsLineTerminator(s[i])
  }

  /** The groups of `/^(\d+) (\d+)(?:\s*$|\s+(.+)$)/`: the two numbers and the host list. */
  datatype RateLimitMatch = RateLimitMatch(max: string, period: string, hosts: Option<string>)

  /** `exec` of the configuration pattern. Each digit group takes the longest run (the next
      character must be a space or the end); the host list is what follows the white space
      after the period, and it must reach the end without a line terminator. */
  function MatchRateLimit(config: string): (r: Option<RateLimitMatch>)
    ensures r.Some? ==> |r.value.max| > 0 && AllDigits(r.value.max) && |r.value.period| > 0 && AllDigits(r.value.period)
    ensures r.Some? && r.value.hosts.Some? ==>
      |r.value.hosts.value| > 0 && !IsSpace(r.value.hosts.value[0]) && NoLineTerminator(r.value.hosts.value)
  {
    var a := |DigitPrefix(config)|;
    if a == 0 || a >= |config| || config[a] != ' ' then None
    else MatchPeriod(DigitPrefix(config), config[a + 1..])
  }

  /** The pattern after `(\d+) `: the period's digits, then the end of the match. */
  function MatchPeriod(max: string, t: string): (r: Option<RateLimitMatch>)
    ensures r.Some? ==> r.value.max == max && |r.value.period| > 0 && AllDigits(r.value.period)
    ensures r.Some? && r.value.hosts.Some? ==>
      |r.value.hosts.value| > 0 && !IsSpace(r.value.hosts.value[0]) && NoLineTerminator(r.value.hosts.value)
  {
    var b := |DigitPrefix(t)|;
    if b == 0 then None else MatchHosts(max, DigitPrefix(t), t[b..])
  }

  /** `(?:\s*$|\s+(.+)$)`: only white space up to the end, or white space and a host list
      that runs to the end. */
  function MatchHosts(max: string, period: string, rest: string): (r: Option<RateLimitMatch>)
    ensures r.Some? ==> r.value.max == max && r.value.period == period
    ensures r.Some? && r.value.hosts.Some? ==>
      |r.value.hosts.value| > 0 && !IsSpace(r.value.hosts.value[0]) && NoLineTerminator(r.value.hosts.value)
  {
    var hosts := TrimStart(rest);
    if IsBlank(rest) then Some(RateLimitMatch(max, period, None))
    else if IsSpace(rest[0]) && NoLineTerminator(hosts) then
      TrimStartProps(rest);
      TrimNotBlank(rest);
      Some(RateLimitMatch(max, period, Some(hosts)))
    else None
  }

  lemma {:induction false} TrimNotBlank(s: string)
    requires !IsBlank(s)
    ensures |TrimStart(s)| > 0
    decreases |s|
  {
    var i :| 0 <= i < |s| && !IsSpace(s[i]);
    if IsSpace(s[0]) {
      assert s[1..][i - 1] == s[i];
      TrimNotBlank(s[1..]);
    }
  }

  /** The two digit groups of "<m> <p><rest>" are m and p, and `rest` is what follows. */
  lemma DigitGroups(m: string, p: string, rest: string)
    requires |m| > 0 && AllDigits(m) && |p| > 0 && AllDigits(p)
    requires |rest| > 0 ==> !IsDigit(rest[0])
    ensures MatchRateLimit(m + " " + p + rest) == MatchHosts(m, p, rest)
  {
    var tail := " " + (p + rest);
    Regroup(m, " ", p, rest);
    DigitPrefixConcat(m, tail);
    assert (m + tail)[|m|] == ' ';
    assert (m + tail)[|m| + 1..] == p + rest;
    DigitPrefixConcat(p, rest);
    assert (p + rest)[|p|..] == rest;
  }

  lemma Regroup(a: string, b: string, c: string, d: string)
    ensures a + b + c + d == a + (b + (c + d))
  {
  }

  /** "<max> <period>" is read back into its numbers, with no host list. */
  lemma MatchRateLimitPlain(max: nat, period: nat)
    ensures MatchRateLimit(NatToString(max) + " " + NatToString(period)) ==
      Some(RateLimitMatch(NatToString(max), NatToString(period), None))
  {
    var m, p := NatToString(max), NatToString(period);
    DigitGroups(m, p, "");
    assert m + " " + p + "" == m + " " + p;
  }

  /** "<max> <period> <hosts>" is read back into its numbers and its host list. */
  lemma MatchRateLimitHosts(max: nat, period: nat, hosts: string)
    requires |hosts| > 0 && !IsSpace(hosts[0]) && NoLineTerminator(hosts)
    ensures MatchRateLimit(NatToString(max) + " " + NatToString(period) + " " + hosts) ==
      Some(RateLimitMatch(NatToString(max), NatToString(period), Some(hosts)))
  {
    var m, p := NatToString(max), NatToString(period);
    var rest := " " + hosts;
    SpacedHosts(hosts);
    assert m + " " + p + " " + hosts == m + " " + p + rest;
    DigitGroups(m, p, rest);
  }

  /** White space then a host list that starts with a non-space character. */
  lemma SpacedHosts(hosts: string)
    requires |hosts| > 0 && !IsSpace(hosts[0])
    ensures var rest := " " + hosts;
      !IsDigit(rest[0]) && IsSpace(rest[0]) && !IsBlank(rest) && TrimStart(rest) == hosts
  {
    var rest := " " + hosts;
    assert rest[1..] == hosts;
    assert rest[1] == hosts[0];
  }

  /** A configuration that does not start with a digit sets no limit. */
  lemma MatchRateLimitNone(config: string)
    requires |config| == 0 || !IsDigit(config[0])
    ensures MatchRateLimit(config).None?
  {
  }

  /** `s.split(/\s+/)`. */
  function Words(s: string): (words: seq<string>)
    ensures |words| >= 1
    decreases |s|
  {
    match FirstSpace(s, 0)
    case None => [s]
    case Some(i) =>
      TrimStartShorter(s[i..]);
      [s[..i]] + Words(TrimStart(s[i..]))
  }

  /** The index of the first white-space character at or after `from`. */
  function FirstSpace(s: string, from: nat): (r: Option<nat>)
    requires from <= |s|
    ensures r.Some? ==> from <= r.value < |s| && IsSpace(s[r.value])
    ensures r.Some? ==> forall j :: from <= j < r.value ==> !IsSpace(s[j])
    ensures r.None? ==> forall j :: from <= j < |s| ==> !IsSpace(s[j])
    decreases |s| - from
  {
    if from == |s| then None else if IsSpace(s[from]) then Some(from) else FirstSpace(s, from + 1)
  }

  lemma TrimStartShorter(s: string)
    requires |s| > 0 && IsSpace(s[0])
    ensures |TrimStart(s)| < |s|
  {
  }

  /** No word holds white space, and a text that neither starts nor ends with white space
      has no empty word. */
  lemma {:induction false} WordsProps(s: string)
    ensures forall k, i :: 0 <= k < |Words(s)| && 0 <= i < |Words(s)[k]| ==> !IsSpace(Words(s)[k][i])
    ensures |s| > 0 && !IsSpace(s[0]) && !IsSpace(s[|s| - 1]) ==> forall k :: 0 <= k < |Words(s)| ==> |Words(s)[k]| > 0
    decreases |s|
  {
    match FirstSpace(s, 0)
    case None =>
    case Some(i) =>
      var t := TrimStart(s[i..]);
      TrimStartShorter(s[i..]);
      TrimStartProps(s[i..]);
      WordsProps(t);
      var w := Words(s);
      assert w == [s[..i]] + Words(t);
      forall k, j | 0 <= k < |w| && 0 <= j < |w[k]| ensures !IsSpace(w[k][j]) {
        if k > 0 { assert w[k] == Words(t)[k - 1]; }
      }
      if |s| > 0 && !IsSpace(s[0]) && !IsSpace(s[|s| - 1]) {
        assert i > 0;
        assert |t| > 0 && t[|t| - 1] == s[|s| - 1];
        forall k | 0 <= k < |w| ensures |w[k]| > 0 {
          if k > 0 { assert w[k] == Words(t)[k - 1]; }
        }
      }
  }

  /** The characters a literal host has escaped: `$()*+.?[\]^{|}`. */
  predicate IsRegExpSpecial(c: char) {
    c in {'$', '(', ')', '*', '+', '.', '?', '[', '\\', ']', '^', '{', '|', '}'}
  }

  /** `host.replace(/[$()*+.?[\\\]^{|}]/g, "\\$&")`. */
  function EscapeRegExp(s: string): (r: string)
    ensures |r| >= |s|
  {
    if |s| == 0 then ""
    else (if IsRegExpSpecial(s[0]) then ['\\', s[0]] else [s[0]]) + EscapeRegExp(s[1..])
  }

  /** Reading an escaped text back: a backslash takes the next character literally. */
  function Unescape(s: string): string
    decreases |s|
  {
    if |s| == 0 then ""
    else if s[0] == '\\' && |s| >= 2 then [s[1]] + Unescape(s[2..])
    else [s[0]] + Unescape(s[1..])
  }

  /** An escaped host reads back as the host, and no special character of it is left bare. */
  lemma {:induction false} EscapeRegExpRoundTrip(s: string)
    ensures Unescape(EscapeRegExp(s)) == s
  {
    if |s| > 0 {
      EscapeRegExpRoundTrip(s[1..]);
      var e := EscapeRegExp(s[1..]);
      if IsRegExpSpecial(s[0]) {
        assert (['\\', s[0]] + e)[2..] == e;
      } else {
        assert ([s[0]] + e)[1..] == e;
      }
      assert [s[0]] + s[1..] == s;
    }
  }

  /** One listed host as a part of the unlimited pattern: a "/.../" entry is its inner
      regular expression, any other a literal host with its special characters escaped;
      None where the slash check throws (an entry that starts or ends with '/' but not
      both, or is a lone '/').  Whether the inner expression compiles is checked apart,
      by `HostError`. */
  function HostPart(host: string): (r: Option<string>)
    ensures r.None? <==> |host| > 0 && (host[0] == '/' || host[|host| - 1] == '/') &&
                         (|host| == 1 || host[0] != '/' || host[|host| - 1] != '/')
  {
    var startsWithSlash := |host| > 0 && host[0] == '/';
    var endsWithSlash := |host| > 0 && host[|host| - 1] == '/';
    if startsWithSlash || endsWithSlash then
      if |host| == 1 || !startsWithSlash || !endsWithSlash then None
      else Some(host[1..|host| - 1])
    else Some(EscapeRegExp(host))
  }

  function InvalidRegexMessage(index: nat): string {
    "Invalid CORSANYWHERE_RATELIMIT. Regex at index " + NatToString(index) + " must start and end with a slash (\"/\")."
  }

  predicate AllHostsValid(hosts: seq<string>) {
    forall i :: 0 <= i < |hosts| ==> HostPart(hosts[i]).Some?
  }

  /** What `new RegExp(source)` throws: a `SyntaxError` naming the pattern (the engine's
      own explanation after it is not modelled). */
  function RegExpSyntaxError(source: string): string {
    "Invalid regular expression: /" + source + "/"
  }

  /** A "/.../" entry, whose inner text is compiled as a regular expression. */
  predicate IsPatternEntry(host: string) {
    |host| > 1 && host[0] == '/' && host[|host| - 1] == '/'
  }

  /** The error the `forEach` callback throws for entry `i`, if any: the slash message for
      a malformed entry, or the `SyntaxError` of `new RegExp(inner)` when the inner text of
      a "/.../" entry does not compile (`compiles` is the engine's verdict). */
  function HostError(host: string, i: nat, compiles: string -> bool): (r: Option<string>)
    ensures HostPart(host).None? ==> r == Some(InvalidRegexMessage(i))
    ensures HostPart(host).Some? && IsPatternEntry(host) && !compiles(host[1..|host| - 1]) ==>
      r == Some(RegExpSyntaxError(host[1..|host| - 1]))
    ensures r.None? <==> HostPart(host).Some? && (IsPatternEntry(host) ==> compiles(host[1..|host| - 1]))
  {
    if HostPart(host).None? then Some(InvalidRegexMessage(i))
    else if IsPatternEntry(host) && !compiles(HostPart(host).value) then Some(RegExpSyntaxError(HostPart(host).value))
    else None
  }

  /** Every "/.../" entry's inner text compiles. */
  predicate AllPatternsCompile(hosts: seq<string>, compiles: string -> bool) {
    forall i :: 0 <= i < |hosts| && IsPatternEntry(hosts[i]) ==> compiles(hosts[i][1..|hosts[i]| - 1])
  }

  /** The parts of well-formed host entries. */
  function Parts(hosts: seq<string>): (parts: seq<string>)
    requires AllHostsValid(hosts)
    ensures |parts| == |hosts| && forall i :: 0 <= i < |hosts| ==> Some(parts[i]) == HostPart(hosts[i])
  {
    seq(|hosts|, i requires 0 <= i < |hosts| => HostPart(hosts[i]).value)
  }

  /** The `forEach` over the listed hosts: the parts in order, or the error of the first
      entry that is malformed or whose inner expression does not compile. */
  method UnlimitedParts(hosts: seq<string>, compiles: string -> bool) returns (r: Result<seq<string>, string>)
    ensures r.Ok? <==> AllHostsValid(hosts) && AllPatternsCompile(hosts, compiles)
    ensures r.Err? ==> exists i :: 0 <= i < |hosts| && HostError(hosts[i], i, compiles) == Some(r.error) &&
                                   forall j :: 0 <= j < i ==> HostError(hosts[j], j, compiles).None?
    ensures r.Ok? ==> r.value == Parts(hosts)
  {
    var parts: seq<string> := [];
    var i := 0;
    while i < |hosts|
      invariant 0 <= i <= |hosts| && |parts| == i
      invariant forall j :: 0 <= j < i ==> Some(parts[j]) == HostPart(hosts[j])
      invariant forall j :: 0 <= j < i ==> HostError(hosts[j], j, compiles).None?
    {
      var part := HostPart(hosts[i]);
      if part.None? {
        return Err(InvalidRegexMessage(i));
      }
      if IsPatternEntry(hosts[i]) && !compiles(part.value) {
        return Err(RegExpSyntaxError(part.value));
      }
      parts := parts + [part.value];
      i := i + 1;
    }
    r := Ok(parts);
    assert parts == Parts(hosts);
  }

  /** The source of the combined pattern, compiled case-insensitively. */
  function UnlimitedSource(parts: seq<string>): (src: string)
    ensures StartsWith(src, "^(?:") && EndsWith(src, ")$")
  {
    var src := "^(?:" + Join(parts, "|") + ")$";
    assert src[|src| - 2..] == ")$";
    src
  }

  /** The message of a rejected request. */
  function RateLimitMessage(max: nat, period: nat): string {
    "The number of requests is limited to " + NatToString(max) +
    (if period == 1 then " per minute" else " per " + NatToString(period) + " minutes") + ". " +
    "Please self-host CORS Anywhere if you need more quota. " +
    "See https://github.com/Rob--W/cors-anywhere#demo-server"
  }

  // ---- the rate limiter ----

  /** `origin.replace(/^[\w\-]+:\/\//i, "")`: a leading "scheme://" is removed. */
  function StripScheme(origin: string): (host: string)
    ensures |host| <= |origin|
  {
    var n := SchemeLength(origin, 0);
    if n > 0 && OccursAt(origin, "://", n) then origin[n + 3..] else origin
  }

  predicate IsSchemeWordChar(c: char) { IsWordChar(c) || c == '-' }

  /** The length of the run of `[\w\-]` characters from `from`. */
  function SchemeLength(s: string, from: nat): (n: nat)
    requires from <= |s|
    ensures from + n <= |s| && (from + n < |s| ==> !IsSchemeWordChar(s[from + n]))
    ensures forall j :: from <= j < from + n ==> IsSchemeWordChar(s[j])
    decreases |s| - from
  {
    if from < |s| && IsSchemeWordChar(s[from]) then 1 + SchemeLength(s, from + 1) else 0
  }

  /** The scheme of an origin is removed, and a host with no ':' is left as it is. */
  lemma StripSchemeOf(scheme: string, host: string)
    requires |scheme| > 0 && forall i :: 0 <= i < |scheme| ==> IsSchemeWordChar(scheme[i])
    ensures StripScheme(scheme + "://" + host) == host
    ensures (forall i :: 0 <= i < |host| ==> host[i] != ':') ==> StripScheme(host) == host
  {
    var s := scheme + "://" + host;
    SchemeRun(s, scheme);
    assert s[|scheme|..|scheme| + 3] == "://";
    assert s[|scheme| + 3..] == host;
    if forall i :: 0 <= i < |host| ==> host[i] != ':' {
      var n := SchemeLength(host, 0);
      if n > 0 && OccursAt(host, "://", n) {
        assert host[n..n + 3][0] == ':';
      }
    }
  }

  lemma SchemeRun(s: string, scheme: string)
    requires scheme <= s && |scheme| < |s| && !IsSchemeWordChar(s[|scheme|])
    requires forall i :: 0 <= i < |scheme| ==> IsSchemeWordChar(scheme[i])
    ensures SchemeLength(s, 0) == |scheme|
  {
    assert forall i :: 0 <= i < |scheme| ==> s[i] == scheme[i];
  }

  /** The count a host has after one more request, or None when the request is rejected
      and the count stays. */
  function Admit(count: nat, max: nat): (r: Option<nat>)
    ensures r.Some? ==> r.value == count + 1 && r.value <= max
  {
    if count + 1 > max then None else Some(count + 1)
  }

  /** How many of `n` successive requests of one host are admitted, from `count`. */
  function Admitted(count: nat, max: nat, n: nat): nat
    decreases n
  {
    if n == 0 then 0
    else match Admit(count, max)
      case None => Admitted(count, max, n - 1)
      case Some(c) => 1 + Admitted(c, max, n - 1)
  }

  /** Only the first `max - count` requests in a period are admitted. */
  lemma {:induction false} AdmittedFirst(count: nat, max: nat, n: nat)
    requires count <= max
    ensures Admitted(count, max, n) == if n < max - count then n else max - count
    decreases n
  {
    if n > 0 {
      match Admit(count, max) {
        case None =>
          AdmittedFirst(count, max, n - 1);
        case Some(c) =>
          AdmittedFirst(c, max, n - 1);
      }
    }
  }

  /** The rate limiter: the limit, the period, the unlimited-host pattern and the counts
      per host of the current period (`accessedHosts`). */
  class RateLimiter {
    const maxRequests: nat
    const periodInMinutes: nat
    const unlimitedSource: Option<string>
    var accessedHosts: map<string, nat>

    /** Every stored count is between 1 and the maximum. */
    ghost predicate Valid()
      reads this
    {
      forall h :: h in accessedHosts ==> 1 <= accessedHosts[h] <= maxRequests
    }

    constructor(maxRequests: nat, periodInMinutes: nat, unlimitedSource: Option<string>)
      ensures this.maxRequests == maxRequests && this.periodInMinutes == periodInMinutes
      ensures this.unlimitedSource == unlimitedSource
      ensures accessedHosts == map[] && Valid()
    {
      this.maxRequests := maxRequests;
      this.periodInMinutes := periodInMinutes;
      this.unlimitedSource := unlimitedSource;
      accessedHosts := map[];
    }

    /** `checkRateLimit(origin)`: nothing for an unlimited host; otherwise the host's count
        goes up by one, or the request is rejected with the message and the count stays.
        `test` is the case-insensitive test of a compiled pattern. */
    method CheckRateLimit(origin: string, test: (string, string) -> bool) returns (r: Option<string>)
      requires Valid()
      modifies this
      ensures Valid()
      ensures var host := StripScheme(origin);
        var count := if host in old(accessedHosts) then old(accessedHosts)[host] else 0;
        if unlimitedSource.Some? && test(unlimitedSource.value, host) then
          r.None? && accessedHosts == old(accessedHosts)
        else match Admit(count, maxRequests)
          case None => r == Some(RateLimitMessage(maxRequests, periodInMinutes)) && accessedHosts == old(accessedHosts)
          case Some(c) => r.None? && accessedHosts == old(accessedHosts)[host := c]
    {
      var host := StripScheme(origin);
      if unlimitedSource.Some? && test(unlimitedSource.value, host) {
        return None;
      }
      var count := if host in accessedHosts then accessedHosts[host] else 0;
      count := count + 1;
      if count > maxRequests {
        return Some(RateLimitMessage(maxRequests, periodInMinutes));
      }
      accessedHosts := accessedHosts[host := count];
      r := None;
    }

    /** The `setInterval` callback: a new period starts with no counts. */
    method Reset()
      modifies this
      ensures accessedHosts == map[] && Valid()
    {
      accessedHosts := map[];
    }
  }

  /** `createRateLimitChecker(CORSANYWHERE_RATELIMIT)`: no limiter (None) when the setting
      does not match the pattern (an unset variable reads "undefined"), the error of a
      host entry that is malformed or does not compile, the `SyntaxError` of a combined
      pattern that does not compile, or a limiter with no counts.  `compiles` is the
      engine's verdict on a pattern source; the `i` flag does not change it. */
  method CreateRateLimitChecker(setting: Option<string>, compiles: string -> bool)
    returns (r: Result<Option<RateLimiter>, string>)
    ensures var m := MatchRateLimit(if setting.Some? then setting.value else "undefined");
      (m.None? ==> r == Ok(None)) &&
      (m.Some? && m.value.hosts.None? ==> r.Ok? && r.value.Some? && r.value.value.unlimitedSource.None?) &&
      (m.Some? && m.value.hosts.Some? ==>
        var hosts := Words(Trim(m.value.hosts.value));
        (r.Ok? <==> AllHostsValid(hosts) && AllPatternsCompile(hosts, compiles) &&
                    compiles(UnlimitedSource(Parts(hosts)))) &&
        (r.Err? && AllHostsValid(hosts) && AllPatternsCompile(hosts, compiles) ==>
          r.error == RegExpSyntaxError(UnlimitedSource(Parts(hosts)))) &&
        (r.Ok? ==> r.value.Some? && r.value.value.unlimitedSource == Some(UnlimitedSource(Parts(hosts)))))
    ensures r.Ok? && r.value.Some? ==>
      var m := MatchRateLimit(if setting.Some? then setting.value else "undefined").value;
      fresh(r.value.value) && r.value.value.accessedHosts == map[] && r.value.value.Valid() &&
      r.value.value.maxRequests == DecValue(m.max) && r.value.value.periodInMinutes == DecValue(m.period)
  {
    var m := MatchRateLimit(if setting.Some? then setting.value else "undefined");
    if m.None? {
      return Ok(None);
    }
    var source: Option<string> := None;
    if m.value.hosts.Some? {
      var hosts := Words(Trim(m.value.hosts.value));
      var parts := UnlimitedParts(hosts, compiles);
      if parts.Err? {
        return Err(parts.error);
      }
      var src := UnlimitedSource(parts.value);
      if !compiles(src) {
        return Err(RegExpSyntaxError(src));
      }
      source := Some(src);
    }
    var limiter := new RateLimiter(DecValue(m.value.max), DecValue(m.value.period), source);
    r := Ok(Some(limiter));
  }

  // ---- CORS headers ----

  predicate Truthy(v: Option<string>) { v.Some? && v.value != "" }

  const AllowOrigin := "access-control-allow-origin"
  const MaxAge := "access-control-max-age"
  const AllowMethods := "access-control-allow-methods"
  const AllowHeaders := "access-control-allow-headers"
  const ExposeHeaders := "access-control-expose-headers"
  const RequestMethod := "access-control-request-method"
  const RequestHeaders := "access-control-request-headers"

  /** The headers before `access-control-expose-headers` is set. */
  function CorsBase(headers: HeaderList, httpMethod: string, corsMaxAge: nat, request: HeaderList): HeaderList {
    var h1 := Set(headers, AllowOrigin, "*");
    var h2 := if httpMethod == "OPTIONS" && corsMaxAge != 0 then Set(h1, MaxAge, NatToString(corsMaxAge)) else h1;
    var m := Get(request, RequestMethod);
    var h3 := if Truthy(m) then Set(h2, AllowMethods, m.value) else h2;
    var hs := Get(request, RequestHeaders);
    if Truthy(hs) then Set(h3, AllowHeaders, hs.value) else h3
  }

  /** The headers `withCORS(headers, request)` returns. */
  function CorsHeaders(headers: HeaderList, httpMethod: string, corsMaxAge: nat, request: HeaderList): HeaderList {
    var base := CorsBase(headers, httpMethod, corsMaxAge, request);
    Set(base, ExposeHeaders, Join(Names(base), ","))
  }

  /** The request headers after `withCORS`: the preflight request headers it answered are
      deleted. */
  function CorsRequestHeaders(request: HeaderList): HeaderList {
    var r1 := if Truthy(Get(request, RequestMethod)) then Delete(request, RequestMethod) else request;
    if Truthy(Get(request, RequestHeaders)) then Delete(r1, RequestHeaders) else r1
  }

  /** What `withCORS` promises: allow-origin is '*'; max-age is set only for OPTIONS with a
      non-zero `corsMaxAge`; the requested method and headers are allowed; every other
      header is kept. */
  lemma CorsHeadersMeaning(headers: HeaderList, httpMethod: string, corsMaxAge: nat, request: HeaderList, other: string)
    ensures var out := CorsHeaders(headers, httpMethod, corsMaxAge, request);
      Get(out, AllowOrigin) == Some("*") &&
      Get(out, MaxAge) == (if httpMethod == "OPTIONS" && corsMaxAge != 0 then Some(NatToString(corsMaxAge)) else Get(headers, MaxAge)) &&
      Get(out, AllowMethods) == (if Truthy(Get(request, RequestMethod)) then Get(request, RequestMethod) else Get(headers, AllowMethods)) &&
      Get(out, AllowHeaders) == (if Truthy(Get(request, RequestHeaders)) then Get(request, RequestHeaders) else Get(headers, AllowHeaders)) &&
      (other !in {AllowOrigin, MaxAge, AllowMethods, AllowHeaders, ExposeHeaders} ==> Get(out, other) == Get(headers, other))
  {
    var h1 := Set(headers, AllowOrigin, "*");
    var h2 := if httpMethod == "OPTIONS" && corsMaxAge != 0 then Set(h1, MaxAge, NatToString(corsMaxAge)) else h1;
    var m := Get(request, RequestMethod);
    var h3 := if Truthy(m) then Set(h2, AllowMethods, m.value) else h2;
    var hs := Get(request, RequestHeaders);
    var base := CorsBase(headers, httpMethod, corsMaxAge, request);
    var value := Join(Names(base), ",");
    SetGet(headers, AllowOrigin, "*", MaxAge);
    SetGet(headers, AllowOrigin, "*", AllowMethods);
    SetGet(headers, AllowOrigin, "*", AllowHeaders);
    SetGet(headers, AllowOrigin, "*", other);
    SetGet(h1, MaxAge, NatToString(corsMaxAge), AllowOrigin);
    SetGet(h1, MaxAge, NatToString(corsMaxAge), AllowMethods);
    SetGet(h1, MaxAge, NatToString(corsMaxAge), AllowHeaders);
    SetGet(h1, MaxAge, NatToString(corsMaxAge), other);
    if Truthy(m) {
      SetGet(h2, AllowMethods, m.value, AllowOrigin);
      SetGet(h2, AllowMethods, m.value, MaxAge);
      SetGet(h2, AllowMethods, m.value, AllowHeaders);
      SetGet(h2, AllowMethods, m.value, other);
    }
    if Truthy(hs) {
      SetGet(h3, AllowHeaders, hs.value, AllowOrigin);
      SetGet(h3, AllowHeaders, hs.value, MaxAge);
      SetGet(h3, AllowHeaders, hs.value, AllowMethods);
      SetGet(h3, AllowHeaders, hs.value, other);
    }
    SetGet(base, ExposeHeaders, value, AllowOrigin);
    SetGet(base, ExposeHeaders, value, MaxAge);
    SetGet(base, ExposeHeaders, value, AllowMethods);
    SetGet(base, ExposeHeaders, value, AllowHeaders);
    SetGet(base, ExposeHeaders, value, other);
  }

  /** `access-control-expose-headers` lists the header names in order, itself last unless
      it was already present. */
  lemma CorsExposeHeaders(headers: HeaderList, httpMethod: string, corsMaxAge: nat, request: HeaderList)
    ensures var out := CorsHeaders(headers, httpMethod, corsMaxAge, request);
      var names := Names(out);
      Names(headers) <= names &&
      Get(out, ExposeHeaders) == Some(Join(if ExposeHeaders in Names(headers) then names else names[..|names| - 1], ","))
  {
    var base := CorsBase(headers, httpMethod, corsMaxAge, request);
    var out := Set(base, ExposeHeaders, Join(Names(base), ","));
    assert out == CorsHeaders(headers, httpMethod, corsMaxAge, request);
    CorsBaseNames(headers, httpMethod, corsMaxAge, request);
    ExposeNames(base);
    assert (ExposeHeaders in Names(base)) == (ExposeHeaders in Names(headers)) by {
      assert Get(base, ExposeHeaders).None? <==> ExposeHeaders !in Names(base);
      assert Get(headers, ExposeHeaders).None? <==> ExposeHeaders !in Names(headers);
    }
    PrefixTrans(Names(headers), Names(base), Names(base), Names(out), Names(out));
  }

  /** Setting expose-headers to the list of names. */
  lemma ExposeNames(base: HeaderList)
    ensures var out := Set(base, ExposeHeaders, Join(Names(base), ","));
      var names := Names(out);
      Names(base) <= names &&
      Get(out, ExposeHeaders) == Some(Join(if ExposeHeaders in Names(base) then names else names[..|names| - 1], ","))
  {
    var value := Join(Names(base), ",");
    var out := Set(base, ExposeHeaders, value);
    SetGet(base, ExposeHeaders, value, ExposeHeaders);
    var names := Names(out);
    if ExposeHeaders !in Names(base) {
      assert names == Names(base) + [ExposeHeaders];
      assert names[..|names| - 1] == Names(base);
    } else {
      assert names == Names(base);
    }
  }

  /** The CORS headers come after the existing ones; expose-headers is not among them. */
  lemma CorsBaseNames(headers: HeaderList, httpMethod: string, corsMaxAge: nat, request: HeaderList)
    ensures Names(headers) <= Names(CorsBase(headers, httpMethod, corsMaxAge, request))
    ensures Get(CorsBase(headers, httpMethod, corsMaxAge, request), ExposeHeaders) == Get(headers, ExposeHeaders)
  {
    CorsBasePrefix(headers, httpMethod, corsMaxAge, request);
    CorsBaseExpose(headers, httpMethod, corsMaxAge, request);
  }

  lemma CorsBaseExpose(headers: HeaderList, httpMethod: string, corsMaxAge: nat, request: HeaderList)
    ensures Get(CorsBase(headers, httpMethod, corsMaxAge, request), ExposeHeaders) == Get(headers, ExposeHeaders)
  {
    var h1 := Set(headers, AllowOrigin, "*");
    var h2 := if httpMethod == "OPTIONS" && corsMaxAge != 0 then Set(h1, MaxAge, NatToString(corsMaxAge)) else h1;
    var m := Get(request, RequestMethod);
    var h3 := if Truthy(m) then Set(h2, AllowMethods, m.value) else h2;
    var hs := Get(request, RequestHeaders);
    SetGet(headers, AllowOrigin, "*", ExposeHeaders);
    SetGet(h1, MaxAge, NatToString(corsMaxAge), ExposeHeaders);
    SetGet(h2, AllowMethods, if m.Some? then m.value else "", ExposeHeaders);
    SetGet(h3, AllowHeaders, if hs.Some? then hs.value else "", ExposeHeaders);
  }

  lemma CorsBasePrefix(headers: HeaderList, httpMethod: string, corsMaxAge: nat, request: HeaderList)
    ensures Names(headers) <= Names(CorsBase(headers, httpMethod, corsMaxAge, request))
  {
    var h1 := Set(headers, AllowOrigin, "*");
    var h2 := if httpMethod == "OPTIONS" && corsMaxAge != 0 then Set(h1, MaxAge, NatToString(corsMaxAge)) else h1;
    var m := Get(request, RequestMethod);
    var h3 := if Truthy(m) then Set(h2, AllowMethods, m.value) else h2;
    var hs := Get(request, RequestHeaders);
    var h4 := if Truthy(hs) then Set(h3, AllowHeaders, hs.value) else h3;
    SetPrefix(headers, true, AllowOrigin, "*");
    SetPrefix(h1, httpMethod == "OPTIONS" && corsMaxAge != 0, MaxAge, NatToString(corsMaxAge));
    SetPrefix(h2, Truthy(m), AllowMethods, if m.Some? then m.value else "");
    SetPrefix(h3, Truthy(hs), AllowHeaders, if hs.Some? then hs.value else "");
    PrefixTrans(Names(headers), Names(h1), Names(h2), Names(h3), Names(h4));
  }

  /** One optional CORS header set: the names before it stay in front. */
  lemma SetPrefix(h: HeaderList, cond: bool, name: string, value: string)
    ensures Names(h) <= Names(if cond then Set(h, name, value) else h)
  {
  }

  lemma PrefixTrans(a: seq<string>, b: seq<string>, c: seq<string>, d: seq<string>, e: seq<string>)
    requires a <= b <= c && c <= d <= e
    ensures a <= e
  {
  }

  /** The request keeps every header but the answered preflight ones. */
  lemma CorsRequestHeadersMeaning(request: HeaderList, other: string)
    ensures var r := CorsRequestHeaders(request);
      !Truthy(Get(r, RequestMethod)) && !Truthy(Get(r, RequestHeaders)) &&
      (other != RequestMethod && other != RequestHeaders ==> Get(r, other) == Get(request, other))
  {
    var r1 := if Truthy(Get(request, RequestMethod)) then Delete(request, RequestMethod) else request;
    DeleteGet(request, RequestMethod, RequestHeaders);
    DeleteGet(request, RequestMethod, other);
    DeleteGet(r1, RequestHeaders, RequestMethod);
    DeleteGet(r1, RequestHeaders, other);
  }

  // ---- redirects ----

  /** What `onProxyResponse` does with a response. */
  datatype RedirectAction =
    | Follow          // request the new location within the proxy
    | RewriteLocation // pass the redirect on with Location pointing back through the proxy
    | PassThrough     // not a redirect, or one without a usable Location

  predicate IsRedirect(statusCode: int) { statusCode in {301, 302, 303, 307, 308} }

  /** The redirects the proxy may follow itself: 307 and 308 would need the method and
      body kept. */
  predicate IsFollowable(statusCode: int) { statusCode in {301, 302, 303} }

  /** `target` is the resolved Location when the response has one that `parseURL` accepts. */
  function Action(statusCode: int, target: Option<string>, redirectCount: nat, maxRedirects: nat): RedirectAction {
    if !IsRedirect(statusCode) || target.None? then PassThrough
    else if IsFollowable(statusCode) && redirectCount + 1 <= maxRedirects then Follow
    else RewriteLocation
  }

  /** `redirectCount_` after the response. */
  function CountAfter(statusCode: int, target: Option<string>, redirectCount: nat): nat {
    if IsRedirect(statusCode) && target.Some? && IsFollowable(statusCode) then redirectCount + 1 else redirectCount
  }

  /** A followed redirect is a 301, 302 or 303 with a target, and it is counted against the
      limit. */
  lemma FollowCounted(statusCode: int, target: Option<string>, redirectCount: nat, maxRedirects: nat)
    ensures Action(statusCode, target, redirectCount, maxRedirects) == Follow <==>
      IsFollowable(statusCode) && target.Some? && CountAfter(statusCode, target, redirectCount) <= maxRedirects
    ensures Action(statusCode, target, redirectCount, maxRedirects) == RewriteLocation ==>
      statusCode in {307, 308} || CountAfter(statusCode, target, redirectCount) > maxRedirects
  {
  }

  /** How many redirects of a chain of responses the proxy follows before it forwards one. */
  function Followed(responses: seq<(int, Option<string>)>, redirectCount: nat, maxRedirects: nat): nat
    decreases |responses|
  {
    if |responses| == 0 then 0
    else if Action(responses[0].0, responses[0].1, redirectCount, maxRedirects) == Follow then
      1 + Followed(responses[1..], redirectCount + 1, maxRedirects)
    else 0
  }

  /** A request follows at most `maxRedirects` redirects in all. */
  lemma {:induction false} FollowedBound(responses: seq<(int, Option<string>)>, redirectCount: nat, maxRedirects: nat)
    ensures redirectCount + Followed(responses, redirectCount, maxRedirects) <= if redirectCount <= maxRedirects then maxRedirects else redirectCount
    decreases |responses|
  {
    if |responses| > 0 && Action(responses[0].0, responses[0].1, redirectCount, maxRedirects) == Follow {
      FollowedBound(responses[1..], redirectCount + 1, maxRedirects);
    }
  }

  /** The proxied response's headers before `withCORS`: Location rewritten to go through the
      proxy, the cookies stripped, and `x-final-url` set. */
  function ForwardedHeaders(proxyHeaders: HeaderList, action: RedirectAction, target: Option<string>,
                            proxyBaseUrl: string, location: string): HeaderList
    requires action == RewriteLocation ==> target.Some?
  {
    var h1 := if action == RewriteLocation then Set(proxyHeaders, "location", proxyBaseUrl + "/" + target.value) else proxyHeaders;
    var h2 := Delete(Delete(h1, "set-cookie"), "set-cookie2");
    Set(h2, "x-final-url", location)
  }

  /** No cookie reaches the client; Location points through the proxy exactly when the
      redirect is passed on; every other upstream header is kept. */
  lemma ForwardedHeadersMeaning(proxyHeaders: HeaderList, action: RedirectAction, target: Option<string>,
                                proxyBaseUrl: string, location: string, other: string)
    requires action == RewriteLocation ==> target.Some?
    ensures var h := ForwardedHeaders(proxyHeaders, action, target, proxyBaseUrl, location);
      Get(h, "set-cookie").None? && Get(h, "set-cookie2").None? && Get(h, "x-final-url") == Some(location) &&
      Get(h, "location") == (if action == RewriteLocation then Some(proxyBaseUrl + "/" + target.value) else Get(proxyHeaders, "location")) &&
      (other !in {"set-cookie", "set-cookie2", "x-final-url", "location"} ==> Get(h, other) == Get(proxyHeaders, other))
  {
    var h1 := if action == RewriteLocation then Set(proxyHeaders, "location", proxyBaseUrl + "/" + target.value) else proxyHeaders;
    var d1 := Delete(h1, "set-cookie");
    var h2 := Delete(d1, "set-cookie2");
    if action == RewriteLocation {
      SetGet(proxyHeaders, "location", proxyBaseUrl + "/" + target.value, "location");
      SetGet(proxyHeaders, "location", proxyBaseUrl + "/" + target.value, other);
    }
    DeleteGet(h1, "set-cookie", "location");
    DeleteGet(h1, "set-cookie", other);
    DeleteGet(d1, "set-cookie2", "set-cookie");
    DeleteGet(d1, "set-cookie2", "location");
    DeleteGet(d1, "set-cookie2", other);
    SetGet(h2, "x-final-url", location, "set-cookie");
    SetGet(h2, "x-final-url", location, "set-cookie2");
    SetGet(h2, "x-final-url", location, "location");
    SetGet(h2, "x-final-url", location, other);
  }

  /** The proxied request (`req` with its `corsAnywhereRequestState`) and the headers set
      on the client response. */
  class ProxyRequest {
    var httpMethod: string
    var headers: HeaderList
    var location: string
    var redirectCount: nat
    var responseHeaders: HeaderList
    const maxRedirects: nat
    const corsMaxAge: nat
    const proxyBaseUrl: string

    constructor(httpMethod: string, headers: HeaderList, location: string, maxRedirects: nat, corsMaxAge: nat, proxyBaseUrl: string)
      ensures this.httpMethod == httpMethod && this.headers == headers && this.location == location
      ensures this.maxRedirects == maxRedirects && this.corsMaxAge == corsMaxAge && this.proxyBaseUrl == proxyBaseUrl
      ensures redirectCount == 0 && responseHeaders == []
    {
      this.httpMethod := httpMethod;
      this.headers := headers;
      this.location := location;
      this.maxRedirects := maxRedirects;
      this.corsMaxAge := corsMaxAge;
      this.proxyBaseUrl := proxyBaseUrl;
      redirectCount := 0;
      responseHeaders := [];
    }

    /** `withCORS(headers, req)`. */
    method WithCORS(h: HeaderList) returns (out: HeaderList)
      modifies this
      ensures out == CorsHeaders(h, httpMethod, corsMaxAge, old(headers))
      ensures headers == CorsRequestHeaders(old(headers))
      ensures httpMethod == old(httpMethod) && location == old(location) && redirectCount == old(redirectCount)
      ensures responseHeaders == old(responseHeaders)
    {
      out := Set(h, AllowOrigin, "*");
      if httpMethod == "OPTIONS" && corsMaxAge != 0 {
        out := Set(out, MaxAge, NatToString(corsMaxAge));
      }
      var requested := Get(headers, RequestMethod);
      var requestedHeaders := Get(headers, RequestHeaders);
      if Truthy(requested) {
        out := Set(out, AllowMethods, requested.value);
        headers := Delete(headers, RequestMethod);
      }
      if Truthy(requestedHeaders) {
        out := Set(out, AllowHeaders, requestedHeaders.value);
        headers := Delete(headers, RequestHeaders);
      }
      out := Set(out, ExposeHeaders, Join(Names(out), ","));
    }

    /** The request turned into a GET of the redirect's target, the redirect recorded in a
        response header. */
    method FollowTo(statusCode: int, url: string)
      modifies this
      ensures responseHeaders == Set(old(responseHeaders), "X-CORS-Redirect-" + NatToString(redirectCount), IntToString(statusCode) + " " + url)
      ensures httpMethod == "GET" && location == url && headers == Delete(Set(old(headers), "content-length", "0"), "content-type")
      ensures redirectCount == old(redirectCount)
    {
      responseHeaders := Set(responseHeaders, "X-CORS-Redirect-" + NatToString(redirectCount), IntToString(statusCode) + " " + url);
      httpMethod := "GET";
      headers := Set(headers, "content-length", "0");
      headers := Delete(headers, "content-type");
      location := url;
    }

    /** `onProxyResponse`: a followable redirect within the limit turns the request into a
        GET of the new location (None: a new upstream request is made); any other response
        is forwarded with the returned headers. */
    method OnProxyResponse(statusCode: int, proxyHeaders: HeaderList, target: Option<string>) returns (forwarded: Option<HeaderList>)
      modifies this
      ensures var action := Action(statusCode, target, old(redirectCount), maxRedirects);
        var shown := if old(redirectCount) == 0 then Set(old(responseHeaders), "x-request-url", old(location)) else old(responseHeaders);
        redirectCount == CountAfter(statusCode, target, old(redirectCount)) &&
        (action == Follow ==>
          forwarded.None? && httpMethod == "GET" && location == target.value &&
          headers == Delete(Set(old(headers), "content-length", "0"), "content-type") &&
          responseHeaders == Set(shown, "X-CORS-Redirect-" + NatToString(redirectCount), IntToString(statusCode) + " " + target.value)) &&
        (action != Follow ==>
          forwarded == Some(CorsHeaders(ForwardedHeaders(proxyHeaders, action, target, proxyBaseUrl, old(location)),
                                        old(httpMethod), corsMaxAge, old(headers))) &&
          headers == CorsRequestHeaders(old(headers)) && httpMethod == old(httpMethod) && location == old(location) &&
          responseHeaders == shown)
    {
      if redirectCount == 0 {
        responseHeaders := Set(responseHeaders, "x-request-url", location);
      }
      var h := proxyHeaders;
      if IsRedirect(statusCode) && target.Some? {
        if IsFollowable(statusCode) {
          redirectCount := redirectCount + 1;
          if redirectCount <= maxRedirects {
            FollowTo(statusCode, target.value);
            assert Action(statusCode, target, old(redirectCount), maxRedirects) == Follow;
            return None;
          }
        }
        h := Set(h, "location", proxyBaseUrl + "/" + target.value);
      }
      h := Delete(h, "set-cookie");
      h := Delete(h, "set-cookie2");
      h := Set(h, "x-final-url", location);
      assert Action(statusCode, target, old(redirectCount), maxRedirects) != Follow;
      h := WithCORS(h);
      forwarded := Some(h);
    }
  }

  // ---- the playlist rewrite ----

  /** `[^"\s]`. */
  predicate IsUrlChar(c: char) { c != '"' && !IsSpace(c) }

  /** The length of the run of URL characters from `from`. */
  function UrlRun(s: string, from: nat): (n: nat)
    requires from <= |s|
    ensures from + n <= |s|
    decreases |s| - from
  {
    if from < |s| && IsUrlChar(s[from]) then 1 + UrlRun(s, from + 1) else 0
  }

  /** The end of a match of `https?:\/\/[^"\s]+` that starts at `i`. */
  function UrlMatchEnd(s: string, i: nat): (r: Option<nat>)
    requires i <= |s|
    ensures r.Some? ==> i < r.value <= |s|
  {
    var scheme := if OccursAt(s, "https://", i) then 8 else if OccursAt(s, "http://", i) then 7 else 0;
    if scheme == 0 || UrlRun(s, i + scheme) == 0 then None
    else Some(i + scheme + UrlRun(s, i + scheme))
  }

  /** `regex.exec(line)`: the leftmost match at or after `from`, as its start and end. */
  function FirstUrl(s: string, from: nat): (r: Option<(nat, nat)>)
    requires from <= |s|
    ensures r.Some? ==> from <= r.value.0 < r.value.1 <= |s| && UrlMatchEnd(s, r.value.0) == Some(r.value.1)
    ensures r.Some? ==> forall j :: from <= j < r.value.0 ==> UrlMatchEnd(s, j).None?
    ensures r.None? ==> forall j :: from <= j < |s| ==> UrlMatchEnd(s, j).None?
    decreases |s| - from
  {
    if from == |s| then None
    else match UrlMatchEnd(s, from)
      case Some(e) => Some((from, e))
      case None => FirstUrl(s, from + 1)
  }

  /** `s.replace(regex, replacement)` with the global flag, from `from` on: every match,
      left to right, becomes the replacement. */
  function ReplaceUrls(s: string, from: nat, replacement: string): string
    requires from <= |s|
    decreases |s| - from
  {
    if from == |s| then ""
    else match UrlMatchEnd(s, from)
      case Some(e) => replacement + ReplaceUrls(s, e, replacement)
      case None => [s[from]] + ReplaceUrls(s, from + 1, replacement)
  }

  /** Without a match the text is unchanged. */
  lemma {:induction false} ReplaceUrlsNone(s: string, from: nat, replacement: string)
    requires from <= |s|
    requires FirstUrl(s, from).None?
    ensures ReplaceUrls(s, from, replacement) == s[from..]
    decreases |s| - from
  {
    if from < |s| {
      ReplaceUrlsNone(s, from + 1, replacement);
      assert s[from..] == [s[from]] + s[from + 1..];
    }
  }

  /** The text before the first match is kept and the match is replaced. */
  lemma {:induction false} ReplaceUrlsFirst(s: string, from: nat, replacement: string, b: nat, e: nat)
    requires from <= |s|
    requires FirstUrl(s, from) == Some((b, e))
    ensures ReplaceUrls(s, from, replacement) == s[from..b] + replacement + ReplaceUrls(s, e, replacement)
    decreases |s| - from
  {
    if from < b {
      assert UrlMatchEnd(s, from).None?;
      assert FirstUrl(s, from + 1) == Some((b, e));
      ReplaceUrlsFirst(s, from + 1, replacement, b, e);
      assert ReplaceUrls(s, from, replacement) == [s[from]] + ReplaceUrls(s, from + 1, replacement);
      assert s[from..b] == [s[from]] + s[from + 1..b];
    } else {
      assert UrlMatchEnd(s, from) == Some(e);
      assert s[from..b] == [];
    }
  }

  /** A character that neither the text nor the replacement holds is not in the result. */
  lemma {:induction false} ReplaceUrlsAbsent(s: string, from: nat, replacement: string, c: char)
    requires from <= |s|
    requires c !in s && c !in replacement
    ensures c !in ReplaceUrls(s, from, replacement)
    decreases |s| - from
  {
    if from < |s| {
      match UrlMatchEnd(s, from) {
        case Some(e) => ReplaceUrlsAbsent(s, e, replacement, c);
        case None =>
          ReplaceUrlsAbsent(s, from + 1, replacement, c);
          assert s[from] in s;
      }
    }
  }

  /** A proxy URL: `{server}{route}?url={encoded target}&headers={encoded headers}`. */
  function ProxiedUrl(server: string, route: string, target: string, headersJson: string): string {
    server + route + "?url=" + EncodeURIComponent(target) + "&headers=" + EncodeURIComponent(headersJson)
  }

  /** The `url` parameter of a proxy URL is the target again. */
  lemma ProxiedUrlTarget(server: string, route: string, target: string, headersJson: string)
    requires '?' !in server + route
    requires forall i :: 0 <= i < |target| ==> target[i] as int < 0x80
    ensures GetParam(QueryOf(ProxiedUrl(server, route, target, headersJson)), "url") == Some(target)
  {
    var tail := "headers=" + EncodeURIComponent(headersJson);
    assert ProxiedUrl(server, route, target, headersJson) == (server + route) + "?url=" + EncodeURIComponent(target) + "&" + tail;
    assert forall i :: 0 <= i < |server + route| ==> (server + route)[i] != '?' by {
      forall i | 0 <= i < |server + route| ensures (server + route)[i] != '?' {
        assert (server + route)[i] in server + route;
      }
    }
    FirstParamRoundTrip(server + route, target, tail);
  }

  /** An encoded component has no line break. */
  lemma EncodedOneLine(s: string)
    ensures '\n' !in EncodeURIComponent(s)
  {
    EncodeURIComponentChars(s);
  }

  /** A proxy URL has no line break when the server URL has none. */
  lemma ProxiedUrlOneLine(server: string, route: string, target: string, headersJson: string)
    requires '\n' !in server && '\n' !in route
    ensures '\n' !in ProxiedUrl(server, route, target, headersJson)
  {
    EncodedOneLine(target);
    EncodedOneLine(headersJson);
  }

  /** An `#EXT-X-KEY:` line: every URL in it points to the segment proxy with the first one
      as its target (the empty text when there is none). */
  function KeyLine(line: string, server: string, headersJson: string): string {
    var first := FirstUrl(line, 0);
    var target := if first.Some? then line[first.value.0..first.value.1] else "";
    ReplaceUrls(line, 0, ProxiedUrl(server, "/ts-proxy", target, headersJson))
  }

  /** The route of a resolved URI: the playlist proxy in a master playlist, the segment
      proxy otherwise. */
  function UriRoute(master: bool): string {
    if master then "/m3u8-proxy" else "/ts-proxy"
  }

  /** One rewritten line, or None where `new URL(line, url)` throws. Tag and comment lines
      are kept, key lines have their URL routed to the segment proxy, and every other line
      (a blank one too) is resolved against the playlist URL and routed by `UriRoute`. */
  function RewriteLine(line: string, master: bool, base: string, server: string, headersJson: string): (r: Option<string>)
    ensures r.None? <==> !StartsWith(line, "#") && Resolve(line, base).None?
  {
    if StartsWith(line, "#") then
      Some(if StartsWith(line, "#EXT-X-KEY:") then KeyLine(line, server, headersJson) else line)
    else match Resolve(line, base)
      case None => None
      case Some(href) => Some(ProxiedUrl(server, UriRoute(master), href, headersJson))
  }

  /** What each kind of line becomes. */
  lemma RewriteLineKinds(line: string, master: bool, base: string, server: string, headersJson: string)
    ensures StartsWith(line, "#") && !StartsWith(line, "#EXT-X-KEY:") ==>
      RewriteLine(line, master, base, server, headersJson) == Some(line)
    ensures StartsWith(line, "#EXT-X-KEY:") && FirstUrl(line, 0).None? ==>
      RewriteLine(line, master, base, server, headersJson) == Some(line)
    ensures StartsWith(line, "#EXT-X-KEY:") && FirstUrl(line, 0).Some? ==>
      StartsWith(RewriteLine(line, master, base, server, headersJson).value,
                 line[..FirstUrl(line, 0).value.0] +
                 ProxiedUrl(server, "/ts-proxy", line[FirstUrl(line, 0).value.0..FirstUrl(line, 0).value.1], headersJson))
    ensures !StartsWith(line, "#") && Resolve(line, base).Some? ==>
      RewriteLine(line, master, base, server, headersJson) ==
        Some(ProxiedUrl(server, UriRoute(master), Resolve(line, base).value, headersJson))
  {
    if StartsWith(line, "#EXT-X-KEY:") {
      assert StartsWith(line, "#") by { assert line[0] == "#EXT-X-KEY:"[0]; }
      var first := FirstUrl(line, 0);
      if first.None? {
        ReplaceUrlsNone(line, 0, ProxiedUrl(server, "/ts-proxy", "", headersJson));
        assert line[0..] == line;
      } else {
        var (b, e) := first.value;
        var repl := ProxiedUrl(server, "/ts-proxy", line[b..e], headersJson);
        ReplaceUrlsFirst(line, 0, repl, b, e);
        assert line[0..b] == line[..b];
        var out := line[..b] + repl + ReplaceUrls(line, e, repl);
        assert out[..|line[..b] + repl|] == line[..b] + repl;
      }
    }
  }

  /** A rewritten line has no line break when the line and the server URL have none. */
  lemma RewriteLineOneLine(line: string, master: bool, base: string, server: string, headersJson: string)
    requires '\n' !in line && '\n' !in server
    requires RewriteLine(line, master, base, server, headersJson).Some?
    ensures '\n' !in RewriteLine(line, master, base, server, headersJson).value
  {
    if StartsWith(line, "#") {
      if StartsWith(line, "#EXT-X-KEY:") {
        var first := FirstUrl(line, 0);
        var target := if first.Some? then line[first.value.0..first.value.1] else "";
        ProxiedUrlOneLine(server, "/ts-proxy", target, headersJson);
        ReplaceUrlsAbsent(line, 0, ProxiedUrl(server, "/ts-proxy", target, headersJson), '\n');
      }
    } else {
      ProxiedUrlOneLine(server, UriRoute(master), Resolve(line, base).value, headersJson);
    }
  }

  /** Some line of the playlist cannot be resolved. */
  predicate SomeLineFails(lines: seq<string>, master: bool, base: string, server: string, headersJson: string) {
    exists k :: 0 <= k < |lines| && RewriteLine(lines[k], master, base, server, headersJson).None?
  }

  /** `newLines` are the playlist's lines rewritten one by one, in order. */
  predicate Rewritten(lines: seq<string>, newLines: seq<string>, master: bool, base: string, server: string, headersJson: string) {
    |newLines| == |lines| &&
    forall k :: 0 <= k < |lines| ==> Some(newLines[k]) == RewriteLine(lines[k], master, base, server, headersJson)
  }

  /** The `for (const line of lines)` loop: the rewritten lines, or None when a line cannot
      be resolved. */
  method RewriteLines(lines: seq<string>, master: bool, base: string, server: string, headersJson: string)
    returns (r: Option<seq<string>>)
    ensures r.None? <==> SomeLineFails(lines, master, base, server, headersJson)
    ensures r.Some? ==> Rewritten(lines, r.value, master, base, server, headersJson)
  {
    var newLines: seq<string> := [];
    var k := 0;
    while k < |lines|
      invariant 0 <= k <= |lines| && |newLines| == k
      invariant forall j :: 0 <= j < k ==> Some(newLines[j]) == RewriteLine(lines[j], master, base, server, headersJson)
    {
      var line := RewriteLine(lines[k], master, base, server, headersJson);
      if line.None? {
        assert SomeLineFails(lines, master, base, server, headersJson) by {
          assert RewriteLine(lines[k], master, base, server, headersJson).None?;
        }
        return None;
      }
      newLines := newLines + [line.value];
      k := k + 1;
    }
    r := Some(newLines);
    assert Rewritten(lines, newLines, master, base, server, headersJson);
  }

  /** The playlist response. */
  datatype PlaylistResponse = PlaylistResponse(statusCode: nat, headers: HeaderList, body: string)

  const PlaylistHeaders: HeaderList := [("Content-Type", "application/vnd.apple.mpegurl"),
                                        ("Access-Control-Allow-Origin", "*"),
                                        ("Access-Control-Allow-Headers", "*"),
                                        ("Access-Control-Allow-Methods", "*")]

  /** `proxyM3U8(url, headers, res)`: 500 with the error message when the playlist cannot
      be fetched, else the playlist with every line rewritten; None where a line makes
      `new URL` throw and no response is written. A playlist that mentions "RESOLUTION="
      is a master playlist. */
  method ProxyM3U8(url: string, headersJson: string, server: string, fetched: Result<string, string>)
    returns (r: Option<PlaylistResponse>)
    ensures fetched.Err? ==> r == Some(PlaylistResponse(500, [], fetched.error))
    ensures fetched.Ok? ==>
      var lines := Split(fetched.value, '\n');
      var master := Contains(fetched.value, "RESOLUTION=");
      (r.None? <==> SomeLineFails(lines, master, url, server, headersJson)) &&
      (r.Some? ==> (r.value.statusCode == 200 && r.value.headers == PlaylistHeaders &&
                    exists newLines :: r.value.body == Join(newLines, "\n") &&
                                       Rewritten(lines, newLines, master, url, server, headersJson)))
  {
    if fetched.Err? {
      return Some(PlaylistResponse(500, [], fetched.error));
    }
    var m3u8 := fetched.value;
    var master := Contains(m3u8, "RESOLUTION=");
    var newLines := RewriteLines(Split(m3u8, '\n'), master, url, server, headersJson);
    if newLines.None? {
      return None;
    }
    r := Some(PlaylistResponse(200, PlaylistHeaders, Join(newLines.value, "\n")));
  }

  /** The rewritten playlist splits back into its rewritten lines, as many as the original
      has, when the server URL has no line break. */
  lemma RewriteKeepsLines(m3u8: string, newLines: seq<string>, master: bool, base: string, server: string, headersJson: string)
    requires '\n' !in server
    requires Rewritten(Split(m3u8, '\n'), newLines, master, base, server, headersJson)
    ensures Split(Join(newLines, "\n"), '\n') == newLines
    ensures |Split(Join(newLines, "\n"), '\n')| == |Split(m3u8, '\n')|
  {
    var lines := Split(m3u8, '\n');
    SplitPieces(m3u8, '\n');
    forall k, i | 0 <= k < |newLines| && 0 <= i < |newLines[k]| ensures newLines[k][i] != '\n' {
      RewriteLineOneLine(lines[k], master, base, server, headersJson);
      assert newLines[k][i] in newLines[k];
    }
    SplitJoin(newLines, '\n');
  }
}
