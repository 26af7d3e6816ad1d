/** `parseM3U8ForQualities`: the quality menu read from an HLS master playlist.  Every
    `#EXT-X-STREAM-INF` line followed by a URI line gives one option, named after the
    stream's height and bandwidth, whose URL is resolved against the playlist's directory
    and, for playlists served through the m3u8 proxy, routed through that proxy again.
    When there is at least one option, an "Auto" option with the playlist's own URL is
    put first. */
module HlsQualities {

  import opened Wrappers
  import opened Text
  import opened Numbers
  import opened Url
  import opened HlsAttributes

  datatype QualityOption = QualityOption(url: string, name: string)

  const StreamInfTag := "#EXT-X-STREAM-INF:"
  const ProxyHost := "proxy.varunaditya.xyz"

  /** The playlist URL up to and including its last '/'. */
  function BaseUrl(sourceUrl: string): (b: string)
    ensures b <= sourceUrl
    ensures |b| > 0 ==> b[|b| - 1] == '/'
    ensures forall j :: |b| <= j < |sourceUrl| ==> sourceUrl[j] != '/'
  {
    match LastIndexOfChar(sourceUrl, '/')
    case None => ""
    case Some(i) => sourceUrl[..i + 1]
  }

  /** Line `i` is a stream tag followed by a non-empty line that is not a tag. */
  predicate IsVariant(lines: seq<string>, i: nat) {
    i + 1 < |lines| && StartsWith(lines[i], StreamInfTag) &&
    lines[i + 1] != "" && !StartsWith(lines[i + 1], "#")
  }

  /** "Unknown", or the height followed by 'p' and, when a bandwidth is given, the
      bandwidth in megabits. */
  function QualityName(info: string): string {
    match FindResolution(info, 0)
    case None => "Unknown"
    case Some(res) =>
      res.height + "p" +
        (match FindBandwidth(info, 0)
         case None => ""
         case Some(b) => " (" + MbpsText(DecValue(b)) + " Mbps)")
  }

  /** A URI starting with "http" is kept; any other is resolved against the base URL,
      which throws (None) when the base is not an absolute URL. */
  function ResolvedUrl(uri: string, sourceUrl: string): Option<string> {
    if StartsWith(uri, "http") then Some(uri) else Resolve(uri, BaseUrl(sourceUrl))
  }

  /** Everything of the playlist URL before its "/m3u8-proxy" path ("" when absent). */
  function ProxyBase(sourceUrl: string): (b: string)
    ensures b <= sourceUrl
  {
    match IndexOf(sourceUrl, "/m3u8-proxy")
    case None => ""
    case Some(j) => sourceUrl[..j]
  }

  /** The `headers` query parameter of the playlist URL as interpolated into a template
      string: decoded, or "null" when it is missing. */
  function HeadersText(p: Parts): string {
    match GetParam(p.query.GetOr(""), "headers")
    case None => "null"
    case Some(h) => h
  }

  /** A playlist fetched through the proxy has its variant URLs sent through the same
      proxy, with the same headers; None where `new URL(sourceUrl)` throws. */
  function Proxied(url: string, sourceUrl: string): Option<string> {
    if Contains(sourceUrl, ProxyHost) && !Contains(url, ProxyHost) then
      match Parse(sourceUrl)
      case None => None
      case Some(p) =>
        Some(ProxyUrl(ProxyBase(sourceUrl), url, HeadersText(p)))
    else Some(url)
  }

  /** The proxy route for `url`, carrying `headers` as written. */
  function ProxyUrl(proxyBase: string, url: string, headers: string): string {
    proxyBase + "/m3u8-proxy?url=" + EncodeURIComponent(url) + "&headers=" + headers
  }

  /** The option for a stream tag and the URI line after it; None where building it throws. */
  function VariantOf(info: string, uri: string, sourceUrl: string): Option<QualityOption> {
    match ResolvedUrl(uri, sourceUrl)
    case None => None
    case Some(u) =>
      match Proxied(u, sourceUrl)
      case None => None
      case Some(v) => Some(QualityOption(v, QualityName(info)))
  }

  /** The options collected from the first `n` lines, in playlist order; None once one of
      them has thrown. */
  function VariantsUpTo(lines: seq<string>, n: nat, sourceUrl: string): Option<seq<QualityOption>>
    requires n <= |lines|
  {
    if n == 0 then Some([])
    else match VariantsUpTo(lines, n - 1, sourceUrl)
      case None => None
      case Some(vs) =>
        if IsVariant(lines, n - 1) then
          match VariantOf(lines[n - 1], lines[n], sourceUrl)
          case None => None
          case Some(v) => Some(vs + [v])
        else Some(vs)
  }

  /** The whole result: the variants with "Auto" in front, or nothing when there are none. */
  function Qualities(content: string, sourceUrl: string): Option<seq<QualityOption>> {
    var lines := Split(content, '\n');
    match VariantsUpTo(lines, |lines|, sourceUrl)
    case None => None
    case Some(vs) => Some(if |vs| > 0 then [QualityOption(sourceUrl, "Auto")] + vs else [])
  }

  method ParseM3U8ForQualities(content: string, sourceUrl: string) returns (r: Option<seq<QualityOption>>)
    ensures r == Qualities(content, sourceUrl)
  {
    var qualityOptions: seq<QualityOption> := [];
    var lines := Split(content, '\n');
    for i := 0 to |lines|
      invariant VariantsUpTo(lines, i, sourceUrl) == Some(qualityOptions)
    {
      if StartsWith(lines[i], StreamInfTag) && i + 1 < |lines| && lines[i + 1] != "" && !StartsWith(lines[i + 1], "#") {
        var v := VariantOf(lines[i], lines[i + 1], sourceUrl);
        if v.None? {
          ThrownStays(lines, i + 1, |lines|, sourceUrl);
          return None;
        }
        qualityOptions := qualityOptions + [v.value];
      }
    }
    if |qualityOptions| > 0 {
      qualityOptions := [QualityOption(sourceUrl, "Auto")] + qualityOptions;
    }
    return Some(qualityOptions);
  }

  /** An exception ends the whole parse. */
  lemma {:induction false} ThrownStays(lines: seq<string>, n: nat, m: nat, sourceUrl: string)
    requires n <= m <= |lines|
    requires VariantsUpTo(lines, n, sourceUrl).None?
    ensures VariantsUpTo(lines, m, sourceUrl).None?
    decreases m - n
  {
    if n < m {
      ThrownStays(lines, n + 1, m, sourceUrl);
    }
  }

  /** The positions of the variant tags among the first `n` lines, in order. */
  function VariantIndices(lines: seq<string>, n: nat): seq<nat>
    requires n <= |lines|
  {
    if n == 0 then [] else VariantIndices(lines, n - 1) + (if IsVariant(lines, n - 1) then [n - 1] else [])
  }

  /** The positions are increasing, each is a variant tag, and every variant tag before
      `n` is among them. */
  lemma {:induction false} VariantIndicesProps(lines: seq<string>, n: nat)
    requires n <= |lines|
    ensures forall k :: 0 <= k < |VariantIndices(lines, n)| ==>
      VariantIndices(lines, n)[k] < n && IsVariant(lines, VariantIndices(lines, n)[k])
    ensures forall k, l :: 0 <= k < l < |VariantIndices(lines, n)| ==>
      VariantIndices(lines, n)[k] < VariantIndices(lines, n)[l]
    ensures forall i :: 0 <= i < n && IsVariant(lines, i) ==> i in VariantIndices(lines, n)
  {
    if n > 0 {
      VariantIndicesProps(lines, n - 1);
    }
  }

  /** Each collected option is the one built from the matching variant tag and its URI
      line, in playlist order. */
  lemma VariantsInOrder(lines: seq<string>, n: nat, sourceUrl: string)
    requires n <= |lines|
    requires VariantsUpTo(lines, n, sourceUrl).Some?
    ensures BuiltFrom(lines, VariantIndices(lines, n), VariantsUpTo(lines, n, sourceUrl).value, sourceUrl)
  {
    VariantsPicked(lines, n, sourceUrl);
    PickedBuilt(lines, VariantIndices(lines, n), VariantsUpTo(lines, n, sourceUrl).value, sourceUrl);
  }

  /** Option `k` of `vs` is the one built from the tag at line `idx[k]`. */
  ghost predicate BuiltFrom(lines: seq<string>, idx: seq<nat>, vs: seq<QualityOption>, sourceUrl: string) {
    |vs| == |idx| &&
    forall k :: 0 <= k < |idx| ==>
      idx[k] + 1 < |lines| && VariantOf(lines[idx[k]], lines[idx[k] + 1], sourceUrl) == Some(vs[k])
  }

  /** What each line gives when read as a variant tag with the next line as its URI. */
  ghost function LineOptions(lines: seq<string>, sourceUrl: string): (opts: seq<Option<QualityOption>>)
    ensures |opts| == |lines|
  {
    seq(|lines|, i requires 0 <= i < |lines| =>
      if i + 1 < |lines| then VariantOf(lines[i], lines[i + 1], sourceUrl) else None)
  }

  /** `vs` holds the present values of `opts` at the positions `idx`, in order. */
  ghost predicate Picked<T>(opts: seq<Option<T>>, idx: seq<nat>, vs: seq<T>) {
    |vs| == |idx| && forall k :: 0 <= k < |idx| ==> idx[k] < |opts| && opts[idx[k]] == Some(vs[k])
  }

  lemma PickedBuilt(lines: seq<string>, idx: seq<nat>, vs: seq<QualityOption>, sourceUrl: string)
    requires Picked(LineOptions(lines, sourceUrl), idx, vs)
    ensures BuiltFrom(lines, idx, vs, sourceUrl)
  {
    var opts := LineOptions(lines, sourceUrl);
    forall k | 0 <= k < |idx|
      ensures idx[k] + 1 < |lines| && VariantOf(lines[idx[k]], lines[idx[k] + 1], sourceUrl) == Some(vs[k])
    {
      assert opts[idx[k]] == Some(vs[k]);
    }
  }

  lemma {:induction false} VariantsPicked(lines: seq<string>, n: nat, sourceUrl: string)
    requires n <= |lines|
    requires VariantsUpTo(lines, n, sourceUrl).Some?
    ensures Picked(LineOptions(lines, sourceUrl), VariantIndices(lines, n), VariantsUpTo(lines, n, sourceUrl).value)
  {
    if n > 0 {
      VariantsPicked(lines, n - 1, sourceUrl);
      var opts := LineOptions(lines, sourceUrl);
      var prev := VariantsUpTo(lines, n - 1, sourceUrl).value;
      if IsVariant(lines, n - 1) {
        var v := VariantOf(lines[n - 1], lines[n], sourceUrl).value;
        VariantTaken(lines, n, sourceUrl, prev, v);
        assert opts[n - 1] == Some(v);
        PickedAppend(opts, VariantIndices(lines, n - 1), prev, n - 1, v, VariantIndices(lines, n), VariantsUpTo(lines, n, sourceUrl).value);
      } else {
        VariantSkipped(lines, n, sourceUrl);
      }
    }
  }

  /** A variant tag on line `n - 1` appends its option. */
  lemma VariantTaken(lines: seq<string>, n: nat, sourceUrl: string, prev: seq<QualityOption>, v: QualityOption)
    requires 0 < n <= |lines| && IsVariant(lines, n - 1)
    requires VariantsUpTo(lines, n - 1, sourceUrl) == Some(prev)
    requires VariantOf(lines[n - 1], lines[n], sourceUrl) == Some(v)
    ensures VariantsUpTo(lines, n, sourceUrl) == Some(prev + [v])
    ensures VariantIndices(lines, n) == VariantIndices(lines, n - 1) + [n - 1]
  {
  }

  /** Any other line leaves the options as they were. */
  lemma VariantSkipped(lines: seq<string>, n: nat, sourceUrl: string)
    requires 0 < n <= |lines| && !IsVariant(lines, n - 1)
    ensures VariantsUpTo(lines, n, sourceUrl) == VariantsUpTo(lines, n - 1, sourceUrl)
    ensures VariantIndices(lines, n) == VariantIndices(lines, n - 1)
  {
  }

  lemma PickedAppend<T>(opts: seq<Option<T>>, idx: seq<nat>, vs: seq<T>, i: nat, v: T, idx': seq<nat>, vs': seq<T>)
    requires Picked(opts, idx, vs) && i < |opts| && opts[i] == Some(v)
    requires idx' == idx + [i] && vs' == vs + [v]
    ensures Picked(opts, idx', vs')
  {
    forall k | 0 <= k < |idx'|
      ensures idx'[k] < |opts| && opts[idx'[k]] == Some(vs'[k])
    {
      if k < |idx| {
        assert idx'[k] == idx[k] && vs'[k] == vs[k];
      }
    }
  }

  /** The parse throws exactly when building the option of some variant tag throws. */
  lemma {:induction false} VariantsThrow(lines: seq<string>, n: nat, sourceUrl: string)
    requires n <= |lines|
    ensures VariantsUpTo(lines, n, sourceUrl).None? <==> exists i :: 0 <= i < n && ThrowsAt(lines, i, sourceUrl)
  {
    if n > 0 {
      VariantsThrow(lines, n - 1, sourceUrl);
      ThrowStep(lines, n, sourceUrl);
      ThrowsBefore(lines, n, sourceUrl);
    }
  }

  /** Line `i` is a variant tag whose option cannot be built. */
  ghost predicate ThrowsAt(lines: seq<string>, i: nat, sourceUrl: string) {
    IsVariant(lines, i) && VariantOf(lines[i], lines[i + 1], sourceUrl).None?
  }

  lemma ThrowStep(lines: seq<string>, n: nat, sourceUrl: string)
    requires 0 < n <= |lines|
    ensures VariantsUpTo(lines, n, sourceUrl).None? <==>
      VariantsUpTo(lines, n - 1, sourceUrl).None? || ThrowsAt(lines, n - 1, sourceUrl)
  {
  }

  lemma ThrowsBefore(lines: seq<string>, n: nat, sourceUrl: string)
    requires 0 < n <= |lines|
    ensures (exists i :: 0 <= i < n && ThrowsAt(lines, i, sourceUrl)) <==>
      (exists i :: 0 <= i < n - 1 && ThrowsAt(lines, i, sourceUrl)) || ThrowsAt(lines, n - 1, sourceUrl)
  {
  }

  /** The result is empty exactly when the playlist has no variant; otherwise "Auto" with
      the playlist URL comes first and one option per variant follows. */
  lemma QualitiesShape(content: string, sourceUrl: string)
    requires Qualities(content, sourceUrl).Some?
    ensures |Qualities(content, sourceUrl).value| == 0 <==> NoVariant(Split(content, '\n'))
    ensures |Qualities(content, sourceUrl).value| > 0 ==>
      Qualities(content, sourceUrl).value[0] == QualityOption(sourceUrl, "Auto") &&
      |Qualities(content, sourceUrl).value| == |VariantIndices(Split(content, '\n'), |Split(content, '\n')|)| + 1
  {
    var lines := Split(content, '\n');
    VariantsInOrder(lines, |lines|, sourceUrl);
    NoVariantIndices(lines);
  }

  /** No line of the playlist is a variant tag. */
  ghost predicate NoVariant(lines: seq<string>) {
    forall i :: 0 <= i < |lines| ==> !IsVariant(lines, i)
  }

  lemma NoVariantIndices(lines: seq<string>)
    ensures NoVariant(lines) <==> |VariantIndices(lines, |lines|)| == 0
  {
    VariantIndicesProps(lines, |lines|);
    var idx := VariantIndices(lines, |lines|);
    if |idx| > 0 {
      assert IsVariant(lines, idx[0]) && idx[0] < |lines|;
    }
    if !NoVariant(lines) {
      var i :| 0 <= i < |lines| && IsVariant(lines, i);
      assert i in idx;
    }
  }

  /** A named quality starts with its height, which `parseInt` reads back. */
  lemma QualityNameHeight(info: string)
    ensures FindResolution(info, 0).None? <==> QualityName(info) == "Unknown"
    ensures FindResolution(info, 0).Some? ==>
      StartsWith(QualityName(info), FindResolution(info, 0).value.height + "p") &&
      ParseDecimal(QualityName(info)) == Some(DecValue(FindResolution(info, 0).value.height))
  {
    match FindResolution(info, 0) {
      case None =>
      case Some(res) =>
        var rest := QualityName(info)[|res.height|..];
        assert QualityName(info) == res.height + rest;
        assert rest[0] == 'p';
        ParseDecimalPrefix(res.height, rest);
        assert QualityName(info) != "Unknown" by {
          assert IsDigit(QualityName(info)[0]);
        }
    }
  }

  /** Without the proxy an absolute "http" URI is kept and any other is resolved against
      the playlist's directory. */
  lemma VariantUrlDirect(info: string, uri: string, sourceUrl: string)
    requires !Contains(sourceUrl, ProxyHost)
    ensures StartsWith(uri, "http") ==> VariantOf(info, uri, sourceUrl) == Some(QualityOption(uri, QualityName(info)))
    ensures !StartsWith(uri, "http") ==>
      match Resolve(uri, BaseUrl(sourceUrl))
      case None => VariantOf(info, uri, sourceUrl).None?
      case Some(u) => VariantOf(info, uri, sourceUrl) == Some(QualityOption(u, QualityName(info)))
  {
  }

  /** Through the proxy, a variant URL is wrapped so that the proxy's `url` parameter reads
      back as that URL, and the playlist's own `headers` parameter is passed on. */
  lemma ProxiedRoundTrip(url: string, sourceUrl: string)
    requires Contains(sourceUrl, ProxyHost) && !Contains(url, ProxyHost)
    requires Parse(sourceUrl).Some?
    requires forall i :: 0 <= i < |url| ==> url[i] as int < 0x80
    requires forall i :: 0 <= i < |ProxyBase(sourceUrl)| ==> ProxyBase(sourceUrl)[i] != '?'
    ensures Proxied(url, sourceUrl).Some?
    ensures StartsWith(Proxied(url, sourceUrl).value, ProxyBase(sourceUrl) + "/m3u8-proxy?url=")
    ensures EndsWith(Proxied(url, sourceUrl).value, "&headers=" + HeadersText(Parse(sourceUrl).value))
    ensures GetParam(QueryOf(Proxied(url, sourceUrl).value), "url") == Some(url)
  {
    var base := ProxyBase(sourceUrl);
    var headers := HeadersText(Parse(sourceUrl).value);
    assert Proxied(url, sourceUrl) == Some(ProxyUrl(base, url, headers));
    ProxyUrlRoundTrip(base, url, headers);
  }

  lemma ProxyUrlRoundTrip(proxyBase: string, url: string, headers: string)
    requires forall i :: 0 <= i < |url| ==> url[i] as int < 0x80
    requires forall i :: 0 <= i < |proxyBase| ==> proxyBase[i] != '?'
    ensures StartsWith(ProxyUrl(proxyBase, url, headers), proxyBase + "/m3u8-proxy?url=")
    ensures EndsWith(ProxyUrl(proxyBase, url, headers), "&headers=" + headers)
    ensures GetParam(QueryOf(ProxyUrl(proxyBase, url, headers)), "url") == Some(url)
  {
    var prefix := proxyBase + "/m3u8-proxy";
    var w := ProxyUrl(proxyBase, url, headers);
    assert "/m3u8-proxy?url=" == "/m3u8-proxy" + "?url=";
    assert "&headers=" == "&" + "headers=";
    ProxyUrlParts(proxyBase, "/m3u8-proxy", "?url=", EncodeURIComponent(url), "&", "headers=", headers);
    ProxyPathFree(proxyBase);
    FirstParamRoundTrip(prefix, url, "headers=" + headers);
  }

  /** The groupings of the proxy URL's parts. */
  lemma ProxyUrlParts(b: string, p: string, q: string, e: string, r: string, s: string, t: string)
    ensures b + (p + q) + e + (r + s) + t == (b + p) + q + e + r + (s + t)
    ensures b + (p + q) + e + (r + s) + t == (b + (p + q)) + (e + (r + s) + t)
    ensures b + (p + q) + e + (r + s) + t == (b + (p + q) + e) + ((r + s) + t)
  {
  }

  /** The proxy's path adds no '?' to the base. */
  lemma ProxyPathFree(proxyBase: string)
    requires forall i :: 0 <= i < |proxyBase| ==> proxyBase[i] != '?'
    ensures forall i :: 0 <= i < |proxyBase + "/m3u8-proxy"| ==> (proxyBase + "/m3u8-proxy")[i] != '?'
  {
    var p := proxyBase + "/m3u8-proxy";
    forall i | 0 <= i < |p| ensures p[i] != '?' {
      if i >= |proxyBase| { assert p[i] == "/m3u8-proxy"[i - |proxyBase|]; }
    }
  }

  /** URLs that already go through the proxy, and every URL of a playlist that was not
      fetched through it, are left alone. */
  lemma ProxiedUnchanged(url: string, sourceUrl: string)
    requires !Contains(sourceUrl, ProxyHost) || Contains(url, ProxyHost)
    ensures Proxied(url, sourceUrl) == Some(url)
  {
  }
}
