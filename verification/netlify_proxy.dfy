/** The Netlify proxy function: a CORS preflight answer, the `url` query parameter as the
    upstream target, the client's headers without the hop-by-hop ones, and the upstream
    response with CORS headers added and its body in base64. The upstream request is
    the `fetch` argument. */
module NetlifyProxy {

  import opened Wrappers
  import opened Text
  import opened Url
  import opened Headers

  // ---- the header sanitiser ----

  /** `BAD`: the headers that describe one connection and must not be forwarded. */
  const Bad: set<string> := {"connection", "transfer-encoding", "content-length", "host", "accept-encoding"}

  /** `BAD.has(k.toLowerCase())`. */
  predicate IsBad(name: string) { ToLower(name) in Bad }

  /** The pairs whose names are not hop-by-hop, in their order. */
  function Sanitized(h: HeaderList): (r: HeaderList)
    ensures |r| <= |h|
    ensures forall j :: 0 <= j < |r| ==> r[j] in h && !IsBad(r[j].0)
  {
    if |h| == 0 then []
    else
      var last := h[|h| - 1];
      Sanitized(h[..|h| - 1]) + (if IsBad(last.0) then [] else [last])
  }

  /** A name read from the sanitised headers is absent when it is hop-by-hop, in any case,
      and has its original value otherwise. */
  lemma {:induction false} SanitizedGet(h: HeaderList, name: string)
    ensures Get(Sanitized(h), name) == if IsBad(name) then None else Get(h, name)
  {
    if |h| > 0 {
      var init, last := h[..|h| - 1], h[|h| - 1];
      var s := Sanitized(init);
      assert h == init + [last];
      SanitizedGet(init, name);
      GetAppend(init, last, name);
      if IsBad(last.0) {
        assert Sanitized(h) == s + [];
        assert s + [] == s;
      } else {
        assert Sanitized(h) == s + [last];
        GetAppend(s, last, name);
        SanitizedNames(init, name);
      }
    }
  }

  /** A name survives the sanitiser exactly when it is not hop-by-hop and was there. */
  lemma {:induction false} SanitizedNames(h: HeaderList, name: string)
    ensures name in Names(Sanitized(h)) <==> !IsBad(name) && name in Names(h)
  {
    if |h| > 0 {
      var init, last := h[..|h| - 1], h[|h| - 1];
      assert h == init + [last];
      SanitizedNames(init, name);
      NamesAppend(init, [last]);
      NamesAppend(Sanitized(init), if IsBad(last.0) then [] else [last]);
    }
  }

  /** The names of two lists put together. */
  lemma NamesAppend(a: HeaderList, b: HeaderList)
    ensures Names(a + b) == Names(a) + Names(b)
  {
    var n := Names(a + b);
    assert forall i :: 0 <= i < |a| ==> n[i] == a[i].0;
    assert forall i :: |a| <= i < |a| + |b| ==> n[i] == b[i - |a|].0;
  }

  /** Headers without a hop-by-hop name come through unchanged. */
  lemma {:induction false} SanitizedClean(h: HeaderList)
    requires forall j :: 0 <= j < |h| ==> !IsBad(h[j].0)
    ensures Sanitized(h) == h
  {
    if |h| > 0 {
      SanitizedClean(h[..|h| - 1]);
      assert h == h[..|h| - 1] + [h[|h| - 1]];
    }
  }

  /** Sanitising twice is sanitising once. */
  lemma SanitizedIdempotent(h: HeaderList)
    ensures Sanitized(Sanitized(h)) == Sanitized(h)
  {
    SanitizedClean(Sanitized(h));
  }

  /** `sanitizeHeaders(h = {})`: the loop over `Object.entries(h || {})` that copies every
      pair whose name is not hop-by-hop into a fresh object. An object's names are
      distinct, so each copy appends. */
  method SanitizeHeaders(h: Option<HeaderList>) returns (out: HeaderList)
    requires h.Some? ==> UniqueNames(h.value)
    ensures out == Sanitized(if h.Some? then h.value else [])
  {
    var entries := if h.Some? then h.value else [];
    out := [];
    var i := 0;
    while i < |entries|
      invariant 0 <= i <= |entries|
      invariant out == Sanitized(entries[..i])
    {
      var k, v := entries[i].0, entries[i].1;
      SanitizeStep(entries, i, out);
      if !IsBad(k) {
        out := Set(out, k, v);
      }
      i := i + 1;
    }
    assert entries[..i] == entries;
  }

  /** One more pair is kept unless its name is hop-by-hop. */
  lemma SanitizedStep(h: HeaderList, i: nat)
    requires i < |h|
    ensures Sanitized(h[..i + 1]) == Sanitized(h[..i]) + (if IsBad(h[i].0) then [] else [h[i]])
  {
    assert h[..i + 1][..i] == h[..i];
  }

  /** Setting the next kept pair on the sanitised headers so far appends it. */
  lemma SanitizeStep(h: HeaderList, i: nat, out: HeaderList)
    requires UniqueNames(h) && i < |h| && out == Sanitized(h[..i])
    ensures Sanitized(h[..i + 1]) == if IsBad(h[i].0) then out else Set(out, h[i].0, h[i].1)
  {
    SanitizedStep(h, i);
    if !IsBad(h[i].0) {
      EarlierNames(h, i);
      SetAbsent(out, h[i].0, h[i].1);
    }
  }

  /** With distinct names, the name at `i` is not among the sanitised pairs before it. */
  lemma EarlierNames(h: HeaderList, i: nat)
    requires UniqueNames(h) && i < |h|
    ensures h[i].0 !in Names(Sanitized(h[..i]))
  {
    var s := Sanitized(h[..i]);
    assert forall j :: 0 <= j < |s| ==> Names(s)[j] == s[j].0 && s[j] in h[..i];
  }

  // ---- base64 ----

  type Byte = x: int | 0 <= x < 256

  /** The base64 digit of a value below 64 (section 4 of RFC 4648). */
  function Digit(n: nat): (c: char)
    requires n < 64
  {
    if n < 26 then ('A' as int + n) as char
    else if n < 52 then ('a' as int + n - 26) as char
    else if n < 62 then ('0' as int + n - 52) as char
    else if n == 62 then '+'
    else '/'
  }

  /** The value of a base64 digit; None for any other character ('=' included). */
  function DigitValue(c: char): (r: Option<nat>)
    ensures r.Some? ==> r.value < 64
  {
    if 'A' <= c <= 'Z' then Some(c as int - 'A' as int)
    else if 'a' <= c <= 'z' then Some(c as int - 'a' as int + 26)
    else if '0' <= c <= '9' then Some(c as int - '0' as int + 52)
    else if c == '+' then Some(62)
    else if c == '/' then Some(63)
    else None
  }

  lemma DigitRoundTrip(n: nat)
    requires n < 64
    ensures DigitValue(Digit(n)) == Some(n)
  {
  }

  /** The four digits of three bytes. */
  function Quad(x: Byte, y: Byte, z: Byte): (q: string)
    ensures |q| == 4
  {
    [Digit(x / 4), Digit(x % 4 * 16 + y / 16), Digit(y % 16 * 4 + z / 64), Digit(z % 64)]
  }

  /** `buf.toString("base64")`: each three bytes become four digits; a last group of one
      or two bytes is padded with '='. */
  function Base64(b: seq<Byte>): string {
    if |b| == 0 then ""
    else if |b| == 1 then [Digit(b[0] / 4), Digit(b[0] % 4 * 16), '=', '=']
    else if |b| == 2 then [Digit(b[0] / 4), Digit(b[0] % 4 * 16 + b[1] / 16), Digit(b[1] % 16 * 4), '=']
    else Quad(b[0], b[1], b[2]) + Base64(b[3..])
  }

  /** Four characters for every three bytes or part of three. */
  lemma {:induction false} Base64Length(b: seq<Byte>)
    ensures |Base64(b)| == 4 * ((|b| + 2) / 3)
  {
    if |b| >= 3 {
      Base64Length(b[3..]);
      assert |Base64(b)| == 4 + |Base64(b[3..])|;
      assert (|b| + 2) / 3 == (|b| - 3 + 2) / 3 + 1;
    }
  }

  /** The decoding a client of the function applies to a body marked `isBase64Encoded`. */
  function Base64Decode(s: string): Option<seq<Byte>>
    decreases |s|
  {
    if |s| == 0 then Some([])
    else if |s| < 4 then None
    else
      var block := DecodeBlock(s[0], s[1], s[2], s[3], |s| == 4);
      if block.None? then None
      else
        var rest := Base64Decode(s[4..]);
        if rest.None? then None else Some(block.value + rest.value)
  }

  /** Four characters to their bytes; padding is accepted only in the last block. */
  function DecodeBlock(c0: char, c1: char, c2: char, c3: char, last: bool): Option<seq<Byte>> {
    var d0, d1, d2, d3 := DigitValue(c0), DigitValue(c1), DigitValue(c2), DigitValue(c3);
    if d0.None? || d1.None? then None
    else if d2.Some? && d3.Some? then
      Some([d0.value * 4 + d1.value / 16, d1.value % 16 * 16 + d2.value / 4, d2.value % 4 * 64 + d3.value])
    else if !last || c3 != '=' then None
    else if d2.Some? then Some([d0.value * 4 + d1.value / 16, d1.value % 16 * 16 + d2.value / 4])
    else if c2 == '=' then Some([d0.value * 4 + d1.value / 16])
    else None
  }

  /** The client gets back exactly the upstream bytes. */
  lemma {:induction false} Base64RoundTrip(b: seq<Byte>)
    ensures Base64Decode(Base64(b)) == Some(b)
    decreases |b|
  {
    if |b| == 1 {
      assert b == [b[0]];
      DecodeOne(b[0]);
    } else if |b| == 2 {
      assert b == [b[0], b[1]];
      DecodeTwo(b[0], b[1]);
    } else if |b| >= 3 {
      Base64RoundTrip(b[3..]);
      Base64Step(b);
    }
  }

  lemma Base64Step(b: seq<Byte>)
    requires |b| >= 3 && Base64Decode(Base64(b[3..])) == Some(b[3..])
    ensures Base64Decode(Base64(b)) == Some(b)
  {
    DecodeQuad(b[0], b[1], b[2], Base64(b[3..]), b[3..]);
    FirstThree(b);
  }

  lemma FirstThree<T>(b: seq<T>)
    requires |b| >= 3
    ensures [b[0], b[1], b[2]] + b[3..] == b
  {
  }

  lemma DecodeOne(x: Byte)
    ensures Base64Decode(Base64([x])) == Some([x])
  {
    DigitRoundTrip(x / 4);
    DigitRoundTrip(x % 4 * 16);
    var s := Base64([x]);
    assert s == [Digit(x / 4), Digit(x % 4 * 16), '=', '='];
    assert DecodeBlock(s[0], s[1], s[2], s[3], true) == Some([x]);
    assert Base64Decode(s[4..]) == Some([]);
    assert [x] + [] == [x];
  }

  lemma DecodeTwo(x: Byte, y: Byte)
    ensures Base64Decode(Base64([x, y])) == Some([x, y])
  {
    Sextets(x, y, 0);
    DigitRoundTrip(x / 4);
    DigitRoundTrip(x % 4 * 16 + y / 16);
    DigitRoundTrip(y % 16 * 4);
    var s := Base64([x, y]);
    assert s == [Digit(x / 4), Digit(x % 4 * 16 + y / 16), Digit(y % 16 * 4), '='];
    assert DecodeBlock(s[0], s[1], s[2], s[3], true) == Some([x, y]);
    assert Base64Decode(s[4..]) == Some([]);
    assert [x, y] + [] == [x, y];
  }

  /** A full block in front of a decodable rest. */
  lemma DecodeQuad(x: Byte, y: Byte, z: Byte, rest: string, bytes: seq<Byte>)
    requires Base64Decode(rest) == Some(bytes)
    ensures Base64Decode(Quad(x, y, z) + rest) == Some([x, y, z] + bytes)
  {
    var q, s := Quad(x, y, z), Quad(x, y, z) + rest;
    QuadBlock(x, y, z, |s| == 4);
    assert s[0] == q[0] && s[1] == q[1] && s[2] == q[2] && s[3] == q[3];
    assert s[4..] == rest;
  }

  /** The four digits of three bytes decode to those bytes, in any block. */
  lemma QuadBlock(x: Byte, y: Byte, z: Byte, last: bool)
    ensures var q := Quad(x, y, z); DecodeBlock(q[0], q[1], q[2], q[3], last) == Some([x, y, z])
  {
    Sextets(x, y, z);
    DigitRoundTrip(x / 4);
    DigitRoundTrip(x % 4 * 16 + y / 16);
    DigitRoundTrip(y % 16 * 4 + z / 64);
    DigitRoundTrip(z % 64);
  }

  /** Three bytes cut into four sextets and joined again. */
  lemma Sextets(x: Byte, y: Byte, z: Byte)
    ensures (x % 4 * 16 + y / 16) / 16 == x % 4 && (x % 4 * 16 + y / 16) % 16 == y / 16
    ensures (y % 16 * 4 + z / 64) / 4 == y % 16 && (y % 16 * 4 + z / 64) % 4 == z / 64
    ensures (y % 16 * 4) / 4 == y % 16
    ensures x / 4 * 4 + x % 4 == x && y / 16 * 16 + y % 16 == y && z / 64 * 64 + z % 64 == z
  {
  }

  // ---- the handler ----

  /** The fields of the Netlify event the function reads; None is a missing field. */
  datatype Event = Event(httpMethod: string, rawQuery: Option<string>, headers: Option<HeaderList>, body: Option<string>)

  /** The options of the upstream `fetch`. */
  datatype FetchInit = FetchInit(httpMethod: string, headers: HeaderList, body: Option<string>)

  /** What the function reads from the upstream response. */
  datatype Upstream = Upstream(status: int, headers: HeaderList, bytes: seq<Byte>)

  /** The upstream request: an error stands for a `fetch` that throws. */
  type Fetch = (string, FetchInit) -> Result<Upstream, string>

  /** The returned object; a missing `headers` or `body` is None. */
  datatype Response = Response(statusCode: int, headers: HeaderList, body: Option<string>, isBase64Encoded: bool)

  const AllowOrigin := "access-control-allow-origin"
  const AllowHeaders := "access-control-allow-headers"
  const AllowMethods := "access-control-allow-methods"
  const AllowedMethods := "GET,HEAD,POST,OPTIONS"

  const PreflightHeaders: HeaderList := [(AllowOrigin, "*"), (AllowHeaders, "*"), (AllowMethods, AllowedMethods)]

  /** `Object.fromEntries(entries)`: each pair in turn assigned, so a later pair of the same
      name overwrites an earlier one in its place. */
  function FromEntries(entries: HeaderList): (r: HeaderList)
    ensures UniqueNames(r)
  {
    if |entries| == 0 then []
    else
      var init, last := entries[..|entries| - 1], entries[|entries| - 1];
      SetUnique(FromEntries(init), last.0, last.1);
      Set(FromEntries(init), last.0, last.1)
  }

  /** Entries with distinct names make an object with the same pairs in the same order. */
  lemma {:induction false} FromEntriesUnique(entries: HeaderList)
    requires UniqueNames(entries)
    ensures FromEntries(entries) == entries
  {
    if |entries| > 0 {
      var init, last := entries[..|entries| - 1], entries[|entries| - 1];
      UniqueSplit(entries);
      FromEntriesUnique(init);
      assert entries == init + [last];
      FromEntriesSnoc(init, last);
    }
  }

  /** A pair with a new name after entries that already make themselves is appended. */
  lemma FromEntriesSnoc(init: HeaderList, last: (string, string))
    requires FromEntries(init) == init && last.0 !in Names(init)
    ensures FromEntries(init + [last]) == init + [last]
  {
    var e := init + [last];
    assert e[..|e| - 1] == init;
    assert e[|e| - 1] == last;
    SetAbsent(init, last.0, last.1);
  }

  /** Without its last pair, a list of distinct names still has distinct names, none of
      them the last one's. */
  lemma UniqueSplit(h: HeaderList)
    requires UniqueNames(h) && |h| > 0
    ensures UniqueNames(h[..|h| - 1]) && h[|h| - 1].0 !in Names(h[..|h| - 1])
  {
    var init := h[..|h| - 1];
    assert forall j :: 0 <= j < |init| ==> Names(init)[j] == h[j].0;
  }

  /** The three CORS headers set on the upstream headers. */
  function WithCors(h: HeaderList): HeaderList {
    Set(Set(Set(h, AllowOrigin, "*"), AllowHeaders, "*"), AllowMethods, AllowedMethods)
  }

  /** The CORS headers read back their values; every other header is the upstream one. */
  lemma WithCorsGet(h: HeaderList, name: string)
    ensures Get(WithCors(h), AllowOrigin) == Some("*")
    ensures Get(WithCors(h), AllowHeaders) == Some("*")
    ensures Get(WithCors(h), AllowMethods) == Some(AllowedMethods)
    ensures name != AllowOrigin && name != AllowHeaders && name != AllowMethods ==> Get(WithCors(h), name) == Get(h, name)
  {
    var h1 := Set(h, AllowOrigin, "*");
    var h2 := Set(h1, AllowHeaders, "*");
    SetGet(h, AllowOrigin, "*", name);
    SetGet(h1, AllowHeaders, "*", name);
    SetGet(h1, AllowHeaders, "*", AllowOrigin);
    SetGet(h2, AllowMethods, AllowedMethods, name);
    SetGet(h2, AllowMethods, AllowedMethods, AllowOrigin);
    SetGet(h2, AllowMethods, AllowedMethods, AllowHeaders);
  }

  /** The preflight headers read back their values. */
  lemma PreflightGet()
    ensures Get(PreflightHeaders, AllowOrigin) == Some("*")
    ensures Get(PreflightHeaders, AllowMethods) == Some(AllowedMethods)
  {
    assert AllowOrigin[21] == 'o' && AllowHeaders[21] == 'h' && AllowMethods[21] == 'm';
    var h := PreflightHeaders;
    assert h[1..][1..] == [(AllowMethods, AllowedMethods)];
    assert Get(h[1..][1..], AllowMethods) == Some(AllowedMethods);
    assert Get(h[1..], AllowMethods) == Some(AllowedMethods);
  }

  /** `new URLSearchParams(event.rawQuery || "").get("url")`. */
  function Target(event: Event): Option<string> {
    GetParam(if event.rawQuery.Some? then event.rawQuery.value else "", "url")
  }

  /** The options passed to `fetch`: the event's method, its sanitised headers, and its
      body unless the method is GET or HEAD. */
  function UpstreamRequest(event: Event): (init: FetchInit)
    ensures init.httpMethod == event.httpMethod
    ensures init.body.Some? ==> init.body == event.body
    ensures event.httpMethod != "GET" && event.httpMethod != "HEAD" ==> init.body == event.body
    ensures event.httpMethod == "GET" || event.httpMethod == "HEAD" ==> init.body.None?
  {
    FetchInit(event.httpMethod, Sanitized(if event.headers.Some? then event.headers.value else []),
              if event.httpMethod in ["GET", "HEAD"] then None else event.body)
  }

  /** The request headers keep every name that is not hop-by-hop, with its value, and drop
      the hop-by-hop ones. */
  lemma UpstreamHeaders(event: Event, name: string)
    ensures var h := if event.headers.Some? then event.headers.value else [];
      Get(UpstreamRequest(event).headers, name) == if IsBad(name) then None else Get(h, name)
  {
    SanitizedGet(if event.headers.Some? then event.headers.value else [], name);
  }

  /** `exports.handler(event)`. */
  function Handle(event: Event, fetch: Fetch): Response {
    if event.httpMethod == "OPTIONS" then Response(204, PreflightHeaders, None, false)
    else
      var target := Target(event);
      if target.None? || target.value == "" then Response(400, [], Some("Missing ?url="), false)
      else match fetch(target.value, UpstreamRequest(event))
        case Err(_) => Response(502, [], Some("Upstream fetch failed"), false)
        case Ok(u) => Response(u.status, WithCors(FromEntries(u.headers)), Some(Base64(u.bytes)), true)
  }

  /** A preflight or a request without a target is answered without an upstream request:
      the answer is the same whatever `fetch` does. */
  lemma HandleNoUpstream(event: Event, f: Fetch, g: Fetch)
    requires event.httpMethod == "OPTIONS" || Target(event).None? || Target(event) == Some("")
    ensures Handle(event, f) == Handle(event, g)
    ensures event.httpMethod == "OPTIONS" ==>
      (Handle(event, f).statusCode == 204 &&
       Get(Handle(event, f).headers, AllowOrigin) == Some("*") &&
       Get(Handle(event, f).headers, AllowMethods) == Some(AllowedMethods))
    ensures event.httpMethod != "OPTIONS" ==> Handle(event, f) == Response(400, [], Some("Missing ?url="), false)
  {
    if event.httpMethod == "OPTIONS" {
      PreflightGet();
    }
  }

  /** A request with a target is sent upstream with `UpstreamRequest`; a failure answers
      502, and a response is passed on with its status, its headers plus the CORS headers,
      and a body that decodes to the upstream bytes. */
  lemma HandleUpstream(event: Event, fetch: Fetch, name: string)
    requires event.httpMethod != "OPTIONS" && Target(event).Some? && Target(event).value != ""
    ensures var up := fetch(Target(event).value, UpstreamRequest(event));
      var r := Handle(event, fetch);
      (up.Err? ==> r == Response(502, [], Some("Upstream fetch failed"), false)) &&
      (up.Ok? ==> r.statusCode == up.value.status && r.isBase64Encoded &&
                  r.body.Some? && Base64Decode(r.body.value) == Some(up.value.bytes) &&
                  Get(r.headers, AllowOrigin) == Some("*") &&
                  Get(r.headers, AllowHeaders) == Some("*") &&
                  Get(r.headers, AllowMethods) == Some(AllowedMethods) &&
                  (UniqueNames(up.value.headers) && name != AllowOrigin && name != AllowHeaders && name != AllowMethods ==>
                    Get(r.headers, name) == Get(up.value.headers, name)))
  {
    var up := fetch(Target(event).value, UpstreamRequest(event));
    if up.Ok? {
      Base64RoundTrip(up.value.bytes);
      WithCorsGet(FromEntries(up.value.headers), name);
      if UniqueNames(up.value.headers) {
        FromEntriesUnique(up.value.headers);
      }
    }
  }
}
