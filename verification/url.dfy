/** The parts of the WHATWG URL API and of `encodeURIComponent` that the modelled code
    uses: splitting an absolute URL into scheme, authority, path, query and fragment;
    resolving a reference against a base (`new URL(ref, base).href`); reading a query
    parameter (`URLSearchParams.get`); and percent-encoding a component. */
module Url {

  import opened Wrappers
  import opened Text

  datatype Parts = Parts(scheme: string, authority: string, path: string, query: Option<string>, fragment: Option<string>)

  predicate IsAsciiAlpha(c: char) { ('a' <= c <= 'z') || ('A' <= c <= 'Z') }

  predicate IsSchemeChar(c: char) { IsAsciiAlpha(c) || IsDigit(c) || c == '+' || c == '-' || c == '.' }

  /** Index of the ':' that ends a scheme at the start of `s`, if `s` starts with one. */
  function SchemeEnd(s: string): (r: Option<nat>)
    ensures r.Some? ==> 0 < r.value < |s| && s[r.value] == ':' && IsAsciiAlpha(s[0])
    ensures r.Some? ==> forall i :: 0 <= i < r.value ==> IsSchemeChar(s[i])
  {
    if |s| > 0 && IsAsciiAlpha(s[0]) then SchemeEndFrom(s, 1) else None
  }

  function SchemeEndFrom(s: string, i: nat): (r: Option<nat>)
    requires 0 < i <= |s|
    requires forall j :: 0 <= j < i ==> IsSchemeChar(s[j])
    ensures r.Some? ==> i <= r.value < |s| && s[r.value] == ':'
    ensures r.Some? ==> forall j :: 0 <= j < r.value ==> IsSchemeChar(s[j])
    decreases |s| - i
  {
    if i == |s| then None
    else if s[i] == ':' then Some(i)
    else if IsSchemeChar(s[i]) then SchemeEndFrom(s, i + 1)
    else None
  }

  /** Index of the first character of `s` at or after `from` that is in `stops`, else |s|. */
  function FirstOf(s: string, from: nat, stops: set<char>): (r: nat)
    requires from <= |s|
    ensures from <= r <= |s|
    ensures r < |s| ==> s[r] in stops
    ensures forall j :: from <= j < r ==> s[j] !in stops
    decreases |s| - from
  {
    if from == |s| || s[from] in stops then from else FirstOf(s, from + 1, stops)
  }

  /** An absolute hierarchical URL `scheme://authority path ?query #fragment`, or None
      where `new URL(s)` throws. */
  function Parse(s: string): (r: Option<Parts>)
    ensures r.Some? ==> |r.value.scheme| > 0
  {
    match SchemeEnd(s)
    case None => None
    case Some(k) =>
      if !StartsWith(s[k + 1..], "//") then None
      else
        var a := k + 3;
        var authEnd := FirstOf(s, a, {'/', '?', '#'});
        var pathEnd := FirstOf(s, authEnd, {'?', '#'});
        var queryEnd := FirstOf(s, pathEnd, {'#'});
        if authEnd == a then None
        else Some(Parts(
          ToLower(s[..k]), s[a..authEnd], s[authEnd..pathEnd],
          if pathEnd < queryEnd then Some(s[pathEnd + 1..queryEnd]) else None,
          if queryEnd < |s| then Some(s[queryEnd + 1..]) else None))
  }

  function OptPart(prefix: string, p: Option<string>): string {
    match p case None => "" case Some(v) => prefix + v
  }

  /** `url.href`, with an empty path written as "/". */
  function Href(p: Parts): string {
    p.scheme + "://" + p.authority + (if p.path == "" then "/" else p.path) +
      OptPart("?", p.query) + OptPart("#", p.fragment)
  }

  /** `url.protocol`: the scheme followed by ':'. */
  function Protocol(p: Parts): string { p.scheme + ":" }

  /** `url.hostname`: the authority without user information and port, lower-cased. */
  function Hostname(p: Parts): string {
    var hostPort := match LastIndexOfChar(p.authority, '@')
      case None => p.authority
      case Some(i) => p.authority[i + 1..];
    match IndexOf(hostPort, ":")
    case None => ToLower(hostPort)
    case Some(j) => ToLower(hostPort[..j])
  }

  /** `url.origin` for the hierarchical schemes the code fetches from. */
  function Origin(p: Parts): string {
    var hostPort := match LastIndexOfChar(p.authority, '@')
      case None => p.authority
      case Some(i) => p.authority[i + 1..];
    p.scheme + "://" + ToLower(hostPort)
  }

  predicate IsC0OrSpace(c: char) { c <= ' ' }

  /** Leading and trailing C0 controls and spaces are dropped, and tabs and newlines
      anywhere are removed, before a reference is parsed. */
  function CleanReference(s: string): (r: string)
    ensures forall i :: 0 <= i < |r| ==> r[i] != '\t' && r[i] != '\n' && r[i] != '\r'
  {
    RemoveTabNewline(TrimC0(s))
  }

  function TrimC0(s: string): string {
    if |s| > 0 && IsC0OrSpace(s[0]) then TrimC0(s[1..])
    else if |s| > 0 && IsC0OrSpace(s[|s| - 1]) then TrimC0(s[..|s| - 1])
    else s
  }

  function RemoveTabNewline(s: string): (r: string)
    ensures forall i :: 0 <= i < |r| ==> r[i] != '\t' && r[i] != '\n' && r[i] != '\r'
  {
    if |s| == 0 then ""
    else (if s[0] in {'\t', '\n', '\r'} then "" else [s[0]]) + RemoveTabNewline(s[1..])
  }

  /** The directory part of a path: everything up to and including its last '/'. */
  function Directory(path: string): (d: string)
    ensures d <= path
  {
    match LastIndexOfChar(path, '/')
    case None => ""
    case Some(i) => path[..i + 1]
  }

  /** `new URL(ref, base).href` (RFC 3986 section 5.2 without dot-segment removal), or
      None when it throws: the base is parsed first, so a base that is not an absolute URL
      throws whatever the reference is. */
  function Resolve(reference: string, base: string): (r: Option<string>)
    ensures r.None? <==> Parse(base).None?
    ensures r.Some? && SchemeEnd(CleanReference(reference)).Some? ==> r.value == CleanReference(reference)
  {
    match Parse(base)
    case None => None
    case Some(b) => Some(ResolveAgainst(CleanReference(reference), b))
  }

  /** A cleaned reference resolved against a parsed base: an absolute reference is kept,
      any other takes what it lacks from the base. */
  function ResolveAgainst(ref: string, b: Parts): string {
    if SchemeEnd(ref).Some? then ref
    else if StartsWith(ref, "//") then b.scheme + ":" + ref
    else if StartsWith(ref, "/") then b.scheme + "://" + b.authority + ref
    else if ref == "" then Href(b.(fragment := None))
    else if StartsWith(ref, "?") then Href(b.(query := None, fragment := None)) + ref
    else if StartsWith(ref, "#") then Href(b.(fragment := None)) + ref
    else b.scheme + "://" + b.authority + (if b.path == "" then "/" else Directory(b.path)) + ref
  }

  /** A reference without a scheme of its own resolves to a URL with the base's scheme. */
  lemma ResolveKeepsScheme(reference: string, base: string)
    requires Parse(base).Some? && SchemeEnd(CleanReference(reference)).None?
    ensures StartsWith(Resolve(reference, base).value, Parse(base).value.scheme + ":")
  {
    ResolveAgainstScheme(CleanReference(reference), Parse(base).value);
  }

  lemma ResolveAgainstScheme(ref: string, b: Parts)
    requires SchemeEnd(ref).None?
    ensures b.scheme + ":" <= ResolveAgainst(ref, b)
  {
    var p := b.scheme + ":";
    var y: string;
    if StartsWith(ref, "//") {
      y := ref;
    } else if StartsWith(ref, "/") {
      y := "//" + b.authority + ref;
    } else if ref == "" {
      y := HrefRest(b.(fragment := None));
    } else if StartsWith(ref, "?") {
      y := HrefRest(b.(query := None, fragment := None)) + ref;
    } else if StartsWith(ref, "#") {
      y := HrefRest(b.(fragment := None)) + ref;
    } else {
      y := "//" + b.authority + (if b.path == "" then "/" else Directory(b.path)) + ref;
    }
    assert ResolveAgainst(ref, b) == p + y;
  }

  /** `Href` after the scheme's ':'. */
  function HrefRest(p: Parts): (r: string)
    ensures Href(p) == p.scheme + ":" + r
  {
    "//" + p.authority + (if p.path == "" then "/" else p.path) + OptPart("?", p.query) + OptPart("#", p.fragment)
  }

  /** A plain relative path resolved against a base whose path ends in '/' (and that has no
      query or fragment) is appended to the base. */
  lemma ResolveRelativePath(reference: string, scheme: string, authority: string, dir: string)
    requires |reference| > 0 && reference == CleanReference(reference)
    requires SchemeEnd(reference).None?
    requires reference[0] !in {'/', '?', '#'}
    requires Parse(scheme + "://" + authority + dir) == Some(Parts(scheme, authority, dir, None, None))
    requires |dir| > 0 && dir[|dir| - 1] == '/'
    ensures Resolve(reference, scheme + "://" + authority + dir) == Some(scheme + "://" + authority + dir + reference)
  {
    assert Directory(dir) == dir;
    assert !StartsWith(reference, "/") && !StartsWith(reference, "?") && !StartsWith(reference, "#");
  }

  // ---- percent-encoding ----

  function HexDigitUpper(d: nat): (c: char)
    requires d < 16
  {
    "0123456789ABCDEF"[d]
  }

  /** "%XY" for one byte. */
  function PercentByte(b: nat): (s: string)
    requires b < 256
    ensures |s| == 3 && s[0] == '%'
  {
    ['%', HexDigitUpper(b / 16), HexDigitUpper(b % 16)]
  }

  /** The UTF-8 encoding of one Unicode scalar value. */
  function Utf8(c: char): (bytes: seq<nat>)
    ensures 1 <= |bytes| <= 4 && forall i :: 0 <= i < |bytes| ==> bytes[i] < 256
    ensures (c as int < 0x80) <==> (bytes == [c as int])
  {
    var n := c as int;
    if n < 0x80 then [n]
    else if n < 0x800 then [0xC0 + n / 64, 0x80 + n % 64]
    else if n < 0x10000 then [0xE0 + n / 4096, 0x80 + n / 64 % 64, 0x80 + n % 64]
    else [0xF0 + n / 262144, 0x80 + n / 4096 % 64, 0x80 + n / 64 % 64, 0x80 + n % 64]
  }

  function PercentBytes(bytes: seq<nat>): (s: string)
    requires forall i :: 0 <= i < |bytes| ==> bytes[i] < 256
    ensures |s| == 3 * |bytes|
  {
    if |bytes| == 0 then "" else PercentByte(bytes[0]) + PercentBytes(bytes[1..])
  }

  /** The characters `encodeURIComponent` leaves as they are. */
  predicate IsComponentSafe(c: char) {
    IsAsciiAlpha(c) || IsDigit(c) || c in {'-', '_', '.', '!', '~', '*', '\'', '(', ')'}
  }

  function EncodeChar(c: char): (s: string)
    ensures |s| > 0
  {
    if IsComponentSafe(c) then [c] else PercentBytes(Utf8(c))
  }

  /** `encodeURIComponent(s)`. */
  function EncodeURIComponent(s: string): (r: string)
    ensures |r| >= |s|
  {
    if |s| == 0 then "" else EncodeChar(s[0]) + EncodeURIComponent(s[1..])
  }

  predicate IsEncodedChar(c: char) { IsComponentSafe(c) || c == '%' || IsDigit(c) || ('A' <= c <= 'F') }

  /** The encoding contains only safe characters and '%': in particular no '&', '=', '#',
      '+' or '?', so it can stand as a query value. */
  lemma {:induction false} EncodeURIComponentChars(s: string)
    ensures forall i :: 0 <= i < |EncodeURIComponent(s)| ==> IsEncodedChar(EncodeURIComponent(s)[i])
  {
    if |s| > 0 {
      EncodeURIComponentChars(s[1..]);
      var c := s[0];
      if !IsComponentSafe(c) { PercentBytesChars(Utf8(c)); }
      var e := EncodeChar(c);
      var rest := EncodeURIComponent(s[1..]);
      assert EncodeURIComponent(s) == e + rest;
      forall i | 0 <= i < |e + rest| ensures IsEncodedChar((e + rest)[i]) {
        if i >= |e| { assert (e + rest)[i] == rest[i - |e|]; }
      }
    }
  }

  lemma {:induction false} PercentBytesChars(bytes: seq<nat>)
    requires forall i :: 0 <= i < |bytes| ==> bytes[i] < 256
    ensures forall i :: 0 <= i < |PercentBytes(bytes)| ==> IsEncodedChar(PercentBytes(bytes)[i])
  {
    if |bytes| > 0 {
      PercentBytesChars(bytes[1..]);
      var h := PercentByte(bytes[0]);
      var rest := PercentBytes(bytes[1..]);
      forall i | 0 <= i < |h + rest| ensures IsEncodedChar((h + rest)[i]) {
        if i >= |h| { assert (h + rest)[i] == rest[i - |h|]; }
      }
    }
  }

  // ---- query strings ----

  function HexValueOf(c: char): Option<nat> {
    if IsDigit(c) then Some(c as int - '0' as int)
    else if 'A' <= c <= 'F' then Some(c as int - 'A' as int + 10)
    else if 'a' <= c <= 'f' then Some(c as int - 'a' as int + 10)
    else None
  }

  /** Form decoding of a query name or value (`application/x-www-form-urlencoded`):
      '+' is a space and "%XY" is the byte XY.  Only single-byte (ASCII) escapes are
      decoded; any other '%' stays as it is. */
  function FormDecode(s: string): (r: string)
    decreases |s|
  {
    if |s| == 0 then ""
    else if s[0] == '+' then " " + FormDecode(s[1..])
    else if s[0] == '%' && |s| >= 3 && HexValueOf(s[1]).Some? && HexValueOf(s[2]).Some?
      && HexValueOf(s[1]).value < 8 then
      [(HexValueOf(s[1]).value * 16 + HexValueOf(s[2]).value) as char] + FormDecode(s[3..])
    else [s[0]] + FormDecode(s[1..])
  }

  /** Decoding an encoded ASCII text gives back the text. */
  lemma {:induction false} FormDecodeEncode(s: string)
    requires forall i :: 0 <= i < |s| ==> s[i] as int < 0x80
    ensures FormDecode(EncodeURIComponent(s)) == s
  {
    if |s| > 0 {
      FormDecodeEncode(s[1..]);
      FormDecodeEncodeChar(s[0], EncodeURIComponent(s[1..]));
      assert [s[0]] + s[1..] == s;
    }
  }

  lemma FormDecodeEncodeChar(c: char, rest: string)
    requires c as int < 0x80
    ensures FormDecode(EncodeChar(c) + rest) == [c] + FormDecode(rest)
  {
    if IsComponentSafe(c) {
      assert ([c] + rest)[1..] == rest;
    } else {
      var n := c as int;
      assert EncodeChar(c) == PercentByte(n) by { assert Utf8(c) == [n]; assert PercentBytes([n]) == PercentByte(n) + ""; }
      DecodePercentByte(n, rest);
    }
  }

  /** An ASCII "%XY" escape decodes to its byte. */
  lemma DecodePercentByte(n: nat, rest: string)
    requires n < 0x80
    ensures FormDecode(PercentByte(n) + rest) == [n as char] + FormDecode(rest)
  {
    var e := PercentByte(n);
    assert HexValueOf(e[1]) == Some(n / 16);
    assert HexValueOf(e[2]) == Some(n % 16);
    assert (e + rest)[3..] == rest;
    assert n / 16 * 16 + n % 16 == n;
  }

  /** The text after the first '?' and before the first '#' that follows it. */
  function QueryOf(url: string): string {
    match IndexOf(url, "?")
    case None => ""
    case Some(q) =>
      var rest := url[q + 1..];
      match IndexOf(rest, "#") case None => rest case Some(h) => rest[..h]
  }

  /** `new URLSearchParams(query).get(name)`: the decoded value of the first pair whose
      decoded name is `name`. */
  function GetParam(query: string, name: string): (r: Option<string>)
  {
    FirstParam(Split(query, '&'), name)
  }

  function FirstParam(pairs: seq<string>, name: string): (r: Option<string>)
    ensures r.Some? ==> exists k :: 0 <= k < |pairs| && PairName(pairs[k]) == name && r.value == PairValue(pairs[k]) &&
                                   (forall j :: 0 <= j < k ==> PairName(pairs[j]) != name)
    ensures r.None? ==> forall k :: 0 <= k < |pairs| ==> PairName(pairs[k]) != name
  {
    if |pairs| == 0 then None
    else if PairName(pairs[0]) == name then Some(PairValue(pairs[0]))
    else
      var r := FirstParam(pairs[1..], name);
      if r.Some? then
        var k :| 0 <= k < |pairs[1..]| && PairName(pairs[1..][k]) == name && r.value == PairValue(pairs[1..][k]) &&
                 (forall j :: 0 <= j < k ==> PairName(pairs[1..][j]) != name);
        assert pairs[k + 1] == pairs[1..][k] && forall j :: 0 <= j < k + 1 ==> PairName(pairs[j]) != name;
        r
      else r
  }

  /** A URL whose query starts with `url=` and an encoded ASCII value gives that value back
      to `URLSearchParams.get("url")`, whatever follows the next '&'. */
  lemma {:induction false} FirstParamRoundTrip(prefix: string, value: string, tail: string)
    requires forall i :: 0 <= i < |prefix| ==> prefix[i] != '?'
    requires forall i :: 0 <= i < |value| ==> value[i] as int < 0x80
    ensures GetParam(QueryOf(prefix + "?url=" + EncodeURIComponent(value) + "&" + tail), "url") == Some(value)
  {
    var e := EncodeURIComponent(value);
    EncodeURIComponentChars(value);
    var first := "url=" + e;
    assert prefix + "?url=" + e + "&" + tail == prefix + "?" + first + "&" + tail;
    EncodedPairFree(e);
    var t := QueryStartsWith(prefix, first, tail);
    SplitAppendSep(first, t, '&');
    UrlPair(e);
    FormDecodeEncode(value);
  }

  /** The query of `prefix?first&tail` begins with `first&` when neither the prefix holds
      a '?' nor `first` a '#'. */
  lemma QueryStartsWith(prefix: string, first: string, tail: string) returns (t: string)
    requires forall i :: 0 <= i < |prefix| ==> prefix[i] != '?'
    requires forall i :: 0 <= i < |first| ==> first[i] != '#'
    ensures QueryOf(prefix + "?" + first + "&" + tail) == first + "&" + t
  {
    var s := prefix + "?" + first + "&" + tail;
    IndexOfCharAt(s, '?', |prefix|);
    var rest := s[|prefix| + 1..];
    assert rest == first + "&" + tail;
    match IndexOf(rest, "#") {
      case None =>
        t := tail;
      case Some(h) =>
        assert h > |first| by {
          assert rest[h..h + 1] == "#";
          assert rest[h] == '#';
        }
        t := rest[|first| + 1..h];
        assert rest[..h] == first + "&" + t;
    }
  }

  /** The pair `url=<e>` has the name "url" and the decoded value of `e`. */
  /** An encoded `url=` pair holds neither '#' nor '&'. */
  lemma EncodedPairFree(e: string)
    requires forall i :: 0 <= i < |e| ==> IsEncodedChar(e[i])
    ensures forall i :: 0 <= i < |"url=" + e| ==> ("url=" + e)[i] != '#' && ("url=" + e)[i] != '&'
  {
    var first := "url=" + e;
    forall i | 0 <= i < |first| ensures first[i] != '#' && first[i] != '&' {
      if i >= 4 { assert first[i] == e[i - 4]; }
    }
  }

  lemma UrlPair(e: string)
    ensures PairName("url=" + e) == "url" && PairValue("url=" + e) == FormDecode(e)
  {
    var first := "url=" + e;
    assert first[0] == 'u' && first[1] == 'r' && first[2] == 'l' && first[3] == '=';
    IndexOfCharAt(first, '=', 3);
    assert first[..3] == "url";
    assert first[4..] == e;
    FormDecodeUrl();
  }

  lemma FormDecodeUrl()
    ensures FormDecode("url") == "url"
  {
    assert FormDecode("l") == "l" by { assert "l"[1..] == ""; }
    assert FormDecode("rl") == "rl" by { assert "rl"[1..] == "l"; }
    assert "url"[1..] == "rl";
  }

  function PairName(pair: string): string {
    match IndexOf(pair, "=") case None => FormDecode(pair) case Some(i) => FormDecode(pair[..i])
  }

  function PairValue(pair: string): string {
    match IndexOf(pair, "=") case None => "" case Some(i) => FormDecode(pair[i + 1..])
  }
}
