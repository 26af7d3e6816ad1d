/** `extractQualitiesFromM3U8` of the custom video player: the quality list read from an
    HLS master playlist.  Unlike `parseM3U8ForQualities`, the URI of a variant is the next
    line that is neither blank nor a tag, a variant needs a resolution, and the list is
    sorted tallest first. */
module PlayerQualities {

  import opened Wrappers
  import opened Text
  import opened Numbers
  import opened Sorting
  import opened HlsAttributes

  /** One entry of the quality list (the frame rate, a float, is not modelled). */
  datatype Quality = Quality(index: nat, width: nat, height: nat, bitrate: nat,
                             quality: string, name: string, url: string)

  const StreamInfTag := "#EXT-X-STREAM-INF:"

  /** A trimmed line that can be a URI: not blank and not a tag or comment. */
  predicate IsUriLine(line: string) {
    Trim(line) != "" && !StartsWith(Trim(line), "#")
  }

  /** The first URI line at or after `from`, trimmed. */
  function NextUri(lines: seq<string>, from: nat): Option<string>
    decreases |lines| - from
  {
    if from >= |lines| then None
    else if IsUriLine(lines[from]) then Some(Trim(lines[from]))
    else NextUri(lines, from + 1)
  }

  /** The URI found is the first URI line after `from`; none is found only when there is
      no URI line after `from`. */
  lemma {:induction false} NextUriFirst(lines: seq<string>, from: nat)
    ensures NextUri(lines, from).Some? ==>
      exists j :: from <= j < |lines| && IsUriLine(lines[j]) && NextUri(lines, from).value == Trim(lines[j]) &&
                  forall k :: from <= k < j ==> !IsUriLine(lines[k])
    ensures NextUri(lines, from).None? ==> forall k :: from <= k < |lines| ==> !IsUriLine(lines[k])
    decreases |lines| - from
  {
    if from < |lines| {
      if IsUriLine(lines[from]) {
        assert NextUri(lines, from).value == Trim(lines[from]);
      } else {
        NextUriFirst(lines, from + 1);
        if NextUri(lines, from + 1).Some? {
          var j :| from + 1 <= j < |lines| && IsUriLine(lines[j]) && NextUri(lines, from + 1).value == Trim(lines[j]) &&
                   forall k :: from + 1 <= k < j ==> !IsUriLine(lines[k]);
          assert forall k :: from <= k < j ==> !IsUriLine(lines[k]);
        }
      }
    }
  }

  /** The inner loop: scan forward and stop at the first URI line. */
  method FindNextUri(lines: seq<string>, from: nat) returns (url: Option<string>)
    ensures url == NextUri(lines, from)
  {
    url := None;
    var j := from;
    while j < |lines|
      invariant from <= j && (j <= |lines| || j == from)
      invariant NextUri(lines, from) == NextUri(lines, j)
      decreases |lines| - j
    {
      var nextLine := Trim(lines[j]);
      if nextLine != "" && !StartsWith(nextLine, "#") {
        url := Some(nextLine);
        return;
      }
      j := j + 1;
    }
  }

  /** The playlist URL without its last '/'-separated segment. */
  function BaseDir(m3u8Url: string): string {
    var segments := Split(m3u8Url, '/');
    Join(segments[..|segments| - 1], "/")
  }

  /** When the playlist URL holds a '/', the base directory followed by '/' is the URL up to
      and including its last '/'. */
  lemma BaseDirPrefix(m3u8Url: string, last: nat)
    requires last < |m3u8Url| && m3u8Url[last] == '/'
    requires forall j :: last < j < |m3u8Url| ==> m3u8Url[j] != '/'
    ensures BaseDir(m3u8Url) + "/" == m3u8Url[..last + 1]
  {
    var segments := Split(m3u8Url, '/');
    var n := |segments|;
    JoinSplit(m3u8Url, '/');
    SplitPieces(m3u8Url, '/');
    assert n >= 2;
    JoinAppend(segments[..n - 1], segments[n - 1], "/");
    assert segments[..n - 1] + [segments[n - 1]] == segments;
    var tail := segments[n - 1];
    assert m3u8Url == BaseDir(m3u8Url) + "/" + tail;
    var k := |BaseDir(m3u8Url)|;
    assert m3u8Url[k] == '/';
    assert forall j :: k < j < |m3u8Url| ==> m3u8Url[j] != '/' by {
      forall j | k < j < |m3u8Url| ensures m3u8Url[j] != '/' {
        assert m3u8Url[j] == tail[j - k - 1];
      }
    }
    assert k == last;
  }

  /** The URL kept for a variant: an "http" URL as it is, any other appended to the base
      directory; both go through the proxy builder when there is one. */
  function FinalUrl(url: string, m3u8Url: string, createProxyUrl: Option<string -> string>): string {
    if !StartsWith(url, "http") then
      var fullUrl := BaseDir(m3u8Url) + "/" + url;
      match createProxyUrl case Some(f) => f(fullUrl) case None => fullUrl
    else
      match createProxyUrl case Some(f) => f(url) case None => url
  }

  /** Line `i` is a stream tag with a resolution and a URI line somewhere after it. */
  predicate Kept(lines: seq<string>, i: nat)
    requires i < |lines|
  {
    StartsWith(Trim(lines[i]), StreamInfTag) &&
    FindResolution(Trim(lines[i]), 0).Some? && NextUri(lines, i + 1).Some?
  }

  /** The entry built from line `i`, pushed as entry number `index` (only kept lines are
      pushed, so the defaults for a missing match are never used). */
  function Entry(lines: seq<string>, i: nat, index: nat, m3u8Url: string,
                 createProxyUrl: Option<string -> string>): Quality
    requires i < |lines|
  {
    var line := Trim(lines[i]);
    var res := FindResolution(line, 0).GetOr(Resolution("", ""));
    var height := DecValue(res.height);
    var bandwidth := match FindBandwidth(line, 0) case None => 0 case Some(b) => DecValue(b);
    Quality(index, DecValue(res.width), height, bandwidth,
            NatToString(height) + "p", NatToString(height) + "p",
            FinalUrl(NextUri(lines, i + 1).GetOr(""), m3u8Url, createProxyUrl))
  }

  /** Which lines are kept. */
  function KeptFlags(lines: seq<string>): (flags: seq<bool>)
    ensures |flags| == |lines|
  {
    seq(|lines|, i requires 0 <= i < |lines| => Kept(lines, i))
  }

  /** The positions among the first `n` whose flag is set, in order. */
  function Positions(flags: seq<bool>, n: nat): (idx: seq<nat>)
    requires n <= |flags|
    ensures forall k :: 0 <= k < |idx| ==> idx[k] < n && flags[idx[k]]
  {
    if n == 0 then [] else Positions(flags, n - 1) + (if flags[n - 1] then [n - 1] else [])
  }

  /** The kept lines among the first `n`, in order. */
  function KeptIndices(lines: seq<string>, n: nat): (idx: seq<nat>)
    requires n <= |lines|
    ensures forall k :: 0 <= k < |idx| ==> idx[k] < n
  {
    Positions(KeptFlags(lines), n)
  }

  /** The list as pushed by the outer loop, before sorting. */
  function Collected(lines: seq<string>, idx: seq<nat>, m3u8Url: string,
                     createProxyUrl: Option<string -> string>): (qs: seq<Quality>)
    requires forall k :: 0 <= k < |idx| ==> idx[k] < |lines|
    ensures |qs| == |idx|
    ensures forall k :: 0 <= k < |idx| ==> qs[k] == Entry(lines, idx[k], k, m3u8Url, createProxyUrl)
  {
    seq(|idx|, k requires 0 <= k < |idx| => Entry(lines, idx[k], k, m3u8Url, createProxyUrl))
  }

  function HeightOf(q: Quality): int { q.height }

  /** The whole result: the collected entries, tallest first (the sort is stable), or
      nothing when the playlist could not be fetched. */
  function Qualities(body: Option<string>, m3u8Url: string, createProxyUrl: Option<string -> string>): seq<Quality> {
    match body
    case None => []
    case Some(text) =>
      var lines := Split(text, '\n');
      SortDesc(Collected(lines, KeptIndices(lines, |lines|), m3u8Url, createProxyUrl), HeightOf)
  }

  /** `extractQualitiesFromM3U8`; `body` is the fetched text, None when the fetch failed. */
  method ExtractQualitiesFromM3U8(body: Option<string>, m3u8Url: string,
                                  createProxyUrl: Option<string -> string>) returns (qualities: seq<Quality>)
    ensures qualities == Qualities(body, m3u8Url, createProxyUrl)
  {
    if body.None? {
      return [];
    }
    var lines := Split(body.value, '\n');
    qualities := CollectVariants(lines, m3u8Url, createProxyUrl);
    qualities := SortDesc(qualities, HeightOf);
  }

  /** The outer loop over the lines, before the list is sorted. */
  method CollectVariants(lines: seq<string>, m3u8Url: string, createProxyUrl: Option<string -> string>)
    returns (qualities: seq<Quality>)
    ensures qualities == Collected(lines, KeptIndices(lines, |lines|), m3u8Url, createProxyUrl)
  {
    qualities := [];
    for i := 0 to |lines|
      invariant qualities == Collected(lines, KeptIndices(lines, i), m3u8Url, createProxyUrl)
    {
      var entry := ReadVariant(lines, i, |qualities|, m3u8Url, createProxyUrl);
      ghost var before := KeptIndices(lines, i);
      KeptIndicesStep(lines, i);
      if entry.Some? {
        CollectedAppend(lines, before, i, m3u8Url, createProxyUrl);
        qualities := qualities + [entry.value];
        assert KeptIndices(lines, i + 1) == before + [i];
      } else {
        assert KeptIndices(lines, i + 1) == before;
      }
    }
  }

  /** One turn of the outer loop: the entry for line `i` when it is kept. */
  method ReadVariant(lines: seq<string>, i: nat, index: nat, m3u8Url: string,
                     createProxyUrl: Option<string -> string>) returns (entry: Option<Quality>)
    requires i < |lines|
    ensures entry.Some? <==> Kept(lines, i)
    ensures entry.Some? ==> entry.value == Entry(lines, i, index, m3u8Url, createProxyUrl)
  {
    entry := None;
    var line := Trim(lines[i]);
    if StartsWith(line, StreamInfTag) {
      var resolutionMatch := FindResolution(line, 0);
      var bandwidthMatch := FindBandwidth(line, 0);
      var url := FindNextUri(lines, i + 1);
      if resolutionMatch.Some? && url.Some? {
        var height := DecValue(resolutionMatch.value.height);
        var bandwidth := if bandwidthMatch.Some? then DecValue(bandwidthMatch.value) else 0;
        var finalUrl := FinalUrl(url.value, m3u8Url, createProxyUrl);
        entry := Some(Quality(index, DecValue(resolutionMatch.value.width), height, bandwidth,
                              NatToString(height) + "p", NatToString(height) + "p", finalUrl));
      }
    }
  }

  lemma KeptIndicesStep(lines: seq<string>, i: nat)
    requires i < |lines|
    ensures Kept(lines, i) ==> KeptIndices(lines, i + 1) == KeptIndices(lines, i) + [i]
    ensures !Kept(lines, i) ==> KeptIndices(lines, i + 1) == KeptIndices(lines, i)
  {
    assert KeptFlags(lines)[i] == Kept(lines, i);
  }

  /** Pushing the entry of one more kept line. */
  lemma CollectedAppend(lines: seq<string>, idx: seq<nat>, i: nat, m3u8Url: string,
                        createProxyUrl: Option<string -> string>)
    requires forall k :: 0 <= k < |idx| ==> idx[k] < |lines|
    requires i < |lines|
    ensures Collected(lines, idx + [i], m3u8Url, createProxyUrl) ==
      Collected(lines, idx, m3u8Url, createProxyUrl) + [Entry(lines, i, |idx|, m3u8Url, createProxyUrl)]
  {
    var a := Collected(lines, idx + [i], m3u8Url, createProxyUrl);
    var c := Collected(lines, idx, m3u8Url, createProxyUrl);
    var b := c + [Entry(lines, i, |idx|, m3u8Url, createProxyUrl)];
    assert |a| == |b|;
    forall k | 0 <= k < |a| ensures a[k] == b[k] {
      if k < |idx| {
        assert (idx + [i])[k] == idx[k];
        assert b[k] == c[k];
      } else {
        assert (idx + [i])[k] == i;
      }
    }
  }

  /** Every kept line gives one entry, in playlist order, numbered as pushed; a stream tag
      without a resolution or without a later URI line gives none. */
  lemma KeptIndicesComplete(lines: seq<string>, n: nat)
    requires n <= |lines|
    ensures forall k :: 0 <= k < |KeptIndices(lines, n)| ==> Kept(lines, KeptIndices(lines, n)[k])
    ensures forall k, l :: 0 <= k < l < |KeptIndices(lines, n)| ==> KeptIndices(lines, n)[k] < KeptIndices(lines, n)[l]
    ensures forall i :: 0 <= i < n && Kept(lines, i) ==> i in KeptIndices(lines, n)
  {
    var flags := KeptFlags(lines);
    PositionsComplete(flags, n);
    assert forall i :: 0 <= i < |lines| ==> flags[i] == Kept(lines, i);
  }

  lemma {:induction false} PositionsComplete(flags: seq<bool>, n: nat)
    requires n <= |flags|
    ensures forall k, l :: 0 <= k < l < |Positions(flags, n)| ==> Positions(flags, n)[k] < Positions(flags, n)[l]
    ensures forall i :: 0 <= i < n && flags[i] ==> i in Positions(flags, n)
  {
    if n > 0 {
      PositionsComplete(flags, n - 1);
      var prev, cur := Positions(flags, n - 1), Positions(flags, n);
      if flags[n - 1] {
        assert cur == prev + [n - 1];
        forall k, l | 0 <= k < l < |cur| ensures cur[k] < cur[l] {
          if l == |prev| { assert cur[k] == prev[k]; } else { assert cur[k] == prev[k] && cur[l] == prev[l]; }
        }
        forall i | 0 <= i < n && flags[i] ensures i in cur {
          if i == n - 1 { assert cur[|prev|] == i; } else { assert i in prev; }
        }
      } else {
        assert cur == prev;
      }
    }
  }

  /** The result is ordered by height, tallest first; it holds exactly the collected
      entries; entries of equal height keep their playlist order; and each is named after
      its height. */
  lemma QualitiesSorted(body: Option<string>, m3u8Url: string, createProxyUrl: Option<string -> string>)
    ensures body.None? ==> Qualities(body, m3u8Url, createProxyUrl) == []
    ensures body.Some? ==>
      var lines := Split(body.value, '\n');
      var collected := Collected(lines, KeptIndices(lines, |lines|), m3u8Url, createProxyUrl);
      var qs := Qualities(body, m3u8Url, createProxyUrl);
      SortedDesc(qs, HeightOf) && multiset(qs) == multiset(collected) &&
      (forall h :: WithKey(qs, HeightOf, h) == WithKey(collected, HeightOf, h))
    ensures forall k :: 0 <= k < |Qualities(body, m3u8Url, createProxyUrl)| ==>
      Qualities(body, m3u8Url, createProxyUrl)[k].name == NatToString(Qualities(body, m3u8Url, createProxyUrl)[k].height) + "p" &&
      Qualities(body, m3u8Url, createProxyUrl)[k].quality == Qualities(body, m3u8Url, createProxyUrl)[k].name
  {
    if body.Some? {
      var lines := Split(body.value, '\n');
      var collected := Collected(lines, KeptIndices(lines, |lines|), m3u8Url, createProxyUrl);
      var qs := Qualities(body, m3u8Url, createProxyUrl);
      SortDescProps(collected, HeightOf);
      forall k | 0 <= k < |qs| ensures qs[k].name == NatToString(qs[k].height) + "p" && qs[k].quality == qs[k].name {
        assert qs[k] in multiset(collected);
      }
    }
  }

  /** A relative URI is appended to the playlist's directory, up to and including its last
      '/'; without a proxy builder an absolute one is kept as it is. */
  lemma FinalUrlRelative(url: string, m3u8Url: string, last: nat)
    requires !StartsWith(url, "http")
    requires last < |m3u8Url| && m3u8Url[last] == '/'
    requires forall j :: last < j < |m3u8Url| ==> m3u8Url[j] != '/'
    ensures FinalUrl(url, m3u8Url, None) == m3u8Url[..last + 1] + url
    ensures forall f: string -> string :: FinalUrl(url, m3u8Url, Some(f)) == f(m3u8Url[..last + 1] + url)
  {
    BaseDirPrefix(m3u8Url, last);
  }
}
