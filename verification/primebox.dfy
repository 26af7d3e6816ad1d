/** The PrimeBox embed page: turning the PrimeBox API's answer into the quality list and
    the proxied stream address, and switching to another quality. */
module PrimeBox {

  import opened Wrappers
  import opened Text
  import opened Numbers
  import opened Url
  import opened Sorting

  // ---- the height in a quality name ----

  /** `/(\d+)[pP]/` matches at `i`: a greedy digit run can only give back digits, so the
      match exists exactly when the whole run from `i` is followed by 'p' or 'P'; the
      captured group read with `parseInt`. */
  function HeightAt(s: string, i: nat): Option<nat> {
    if i < |s| && IsDigit(s[i]) then
      var d := DigitPrefix(s[i..]);
      if i + |d| < |s| && (s[i + |d|] == 'p' || s[i + |d|] == 'P') then Some(DecValue(d)) else None
    else None
  }

  /** The leftmost match at or after `from`. */
  function FindHeight(s: string, from: nat): Option<nat>
    decreases |s| - from
  {
    if from >= |s| then None
    else if HeightAt(s, from).Some? then HeightAt(s, from)
    else FindHeight(s, from + 1)
  }

  /** `heightMatch ? parseInt(heightMatch[1]) : 0`. */
  function Height(name: string): nat {
    FindHeight(name, 0).GetOr(0)
  }

  /** The height read is the one of the leftmost match, and 0 only when nothing before a
      positive match could match. */
  lemma {:induction false} FindHeightLeftmost(s: string, from: nat)
    ensures FindHeight(s, from).Some? ==>
      exists p :: from <= p && HeightAt(s, p) == FindHeight(s, from) &&
                  forall q :: from <= q < p ==> HeightAt(s, q).None?
    ensures FindHeight(s, from).None? ==> forall q :: from <= q ==> HeightAt(s, q).None?
    decreases |s| - from
  {
    if from < |s| {
      if HeightAt(s, from).None? {
        FindHeightLeftmost(s, from + 1);
        if FindHeight(s, from + 1).Some? {
          var p :| from + 1 <= p && HeightAt(s, p) == FindHeight(s, from + 1) &&
                   forall q :: from + 1 <= q < p ==> HeightAt(s, q).None?;
          assert forall q :: from <= q < p ==> HeightAt(s, q).None?;
        }
      }
    }
  }

  /** A name "<text without digits><height>p<anything>" has that height. */
  lemma {:induction false} HeightOfName(prefix: string, h: nat, mark: char, rest: string)
    requires forall i :: 0 <= i < |prefix| ==> !IsDigit(prefix[i])
    requires mark == 'p' || mark == 'P'
    ensures Height(prefix + NatToString(h) + [mark] + rest) == h
  {
    var d := NatToString(h);
    var s := prefix + d + [mark] + rest;
    assert s[|prefix|..] == d + ([mark] + rest);
    DigitPrefixConcat(d, [mark] + rest);
    DecValueNatToString(h);
    assert s[|prefix| + |d|] == mark;
    assert HeightAt(s, |prefix|) == Some(h);
    SkipNonDigits(s, |prefix|, 0);
  }

  lemma {:induction false} SkipNonDigits(s: string, p: nat, from: nat)
    requires from <= p < |s| && HeightAt(s, p).Some?
    requires forall i :: from <= i < p ==> !IsDigit(s[i])
    ensures FindHeight(s, from) == HeightAt(s, p)
    decreases p - from
  {
    if from < p {
      SkipNonDigits(s, p, from + 1);
    }
  }

  /** A name with no digit directly followed by 'p' or 'P' has height 0. */
  lemma HeightWithoutMatch(name: string)
    requires forall i :: 0 <= i < |name| ==> HeightAt(name, i).None?
    ensures Height(name) == 0
  {
    FindHeightLeftmost(name, 0);
  }

  // ---- the API answer ----

  /** The parsed JSON body: `status`, `streams` (quality name to URL, in key order) and
      `available_qualities`, each possibly missing. */
  datatype PrimeboxData = PrimeboxData(status: Option<string>, streams: Option<seq<(string, string)>>,
                                       availableQualities: Option<seq<string>>)

  /** One entry of the quality list; `url` is missing when `streams` has no such key. */
  datatype PrimeQuality = PrimeQuality(index: nat, quality: string, url: Option<string>, height: nat)

  /** `streams[name]`. */
  function StreamUrl(streams: seq<(string, string)>, name: string): (r: Option<string>)
    ensures r.Some? <==> exists k :: 0 <= k < |streams| && streams[k].0 == name
  {
    if |streams| == 0 then None
    else if streams[0].0 == name then Some(streams[0].1)
    else
      var r := StreamUrl(streams[1..], name);
      assert forall k :: 0 < k < |streams| ==> streams[k] == streams[1..][k - 1];
      assert r.Some? ==> exists k :: 0 <= k < |streams[1..]| && streams[1..][k].0 == name;
      r
  }

  /** `Object.keys(streams)`. */
  function Keys(streams: seq<(string, string)>): (keys: seq<string>)
    ensures |keys| == |streams| && forall k :: 0 <= k < |streams| ==> keys[k] == streams[k].0
  {
    seq(|streams|, k requires 0 <= k < |streams| => streams[k].0)
  }

  /** `available_qualities || Object.keys(streams)`: an empty array is truthy, so it is
      used as it is. */
  function QualityNames(availableQualities: Option<seq<string>>, streams: seq<(string, string)>): seq<string> {
    if availableQualities.Some? then availableQualities.value else Keys(streams)
  }

  /** The entries before sorting, numbered by their position among the names. */
  function Formatted(names: seq<string>, streams: seq<(string, string)>): (qs: seq<PrimeQuality>)
    ensures |qs| == |names|
    ensures forall i :: 0 <= i < |names| ==>
      qs[i] == PrimeQuality(i, names[i], StreamUrl(streams, names[i]), Height(names[i]))
  {
    seq(|names|, i requires 0 <= i < |names| =>
      PrimeQuality(i, names[i], StreamUrl(streams, names[i]), Height(names[i])))
  }

  function HeightKey(q: PrimeQuality): int { q.height }

  /** `formattedQualities.sort((a, b) => b.height - a.height)`. */
  function QualityList(names: seq<string>, streams: seq<(string, string)>): seq<PrimeQuality> {
    SortDesc(Formatted(names, streams), HeightKey)
  }

  /** The list holds one entry per name, the highest first, entries of equal height in
      the order of the names; so the selected first entry has the greatest height. */
  lemma QualityListProps(names: seq<string>, streams: seq<(string, string)>)
    ensures |QualityList(names, streams)| == |names|
    ensures SortedDesc(QualityList(names, streams), HeightKey)
    ensures multiset(QualityList(names, streams)) == multiset(Formatted(names, streams))
    ensures forall h :: WithKey(QualityList(names, streams), HeightKey, h) == WithKey(Formatted(names, streams), HeightKey, h)
    ensures |names| > 0 ==> forall i :: 0 <= i < |names| ==> QualityList(names, streams)[0].height >= Height(names[i])
  {
    var f := Formatted(names, streams);
    var qs := QualityList(names, streams);
    SortDescProps(f, HeightKey);
    SortDescLength(f, HeightKey);
    if |names| > 0 {
      forall i | 0 <= i < |names| ensures qs[0].height >= Height(names[i]) {
        assert f[i] in multiset(qs);
        var j :| 0 <= j < |qs| && qs[j] == f[i];
        assert HeightKey(qs[0]) >= HeightKey(qs[j]);
      }
    }
  }

  /** `encodeURIComponent('https://pstream.mov')`, the referer the page passes. */
  const EncodedReferer := "https%3A%2F%2Fpstream.mov"

  /** `${config.proxy}/api/video-proxy?url=...&referer=...&cache=true`. */
  function VideoProxyUrl(proxy: string, streamUrl: string): string {
    proxy + "/api/video-proxy" + "?url=" + EncodeURIComponent(streamUrl) + "&" +
      ("referer=" + EncodedReferer + "&cache=true")
  }

  /** The video proxy reads the stream URL back from the `url` parameter (for an ASCII URL
      and a proxy address without '?'). */
  lemma VideoProxyUrlRoundTrip(proxy: string, streamUrl: string)
    requires forall i :: 0 <= i < |proxy| ==> proxy[i] != '?'
    requires forall i :: 0 <= i < |streamUrl| ==> streamUrl[i] as int < 0x80
    ensures GetParam(QueryOf(VideoProxyUrl(proxy, streamUrl)), "url") == Some(streamUrl)
  {
    var path := "/api/video-proxy";
    assert forall i :: 0 <= i < |path| ==> path[i] != '?';
    assert forall i :: 0 <= i < |proxy + path| ==> (proxy + path)[i] != '?';
    FirstParamRoundTrip(proxy + path, streamUrl, "referer=" + EncodedReferer + "&cache=true");
  }

  /** `err.message || 'Failed to load video'`. */
  function ErrorText(message: string): string {
    if message == "" then "Failed to load video" else message
  }

  const NoStreams := "No streams found for this content"
  const NoStreamUrl := "No stream URL found for selected quality"
  /** What reading `.url` of `formattedQualities[0]` throws when the list is empty. */
  const NoBestQuality := "Cannot read properties of undefined (reading 'url')"

  /** The page's state: the accepted API answer, the quality list, the selected entry
      (None before the first answer, when the initial "1080P" label is shown, and after an
      empty list), the stream URL, the proxied address played, and the error shown. */
  class PrimeBoxPlayer {
    var data: Option<PrimeboxData>
    var qualities: seq<PrimeQuality>
    var selected: Option<PrimeQuality>
    var originalVideoUrl: string
    var videoUrl: string
    var error: string

    constructor()
      ensures data == None && qualities == [] && selected == None
      ensures originalVideoUrl == "" && videoUrl == "" && error == ""
    {
      data := None;
      qualities := [];
      selected := None;
      originalVideoUrl := "";
      videoUrl := "";
      error := "";
    }

    /** `fetchVideoUrl` from the PrimeBox answer on: `response` is the parsed body, or the
        message of an error thrown before it (TMDB details missing, HTTP status). */
    method LoadStreams(response: Result<PrimeboxData, string>, proxy: string)
      modifies this
      ensures response.Err? ==>
        error == ErrorText(response.error) &&
        data == old(data) && qualities == old(qualities) && selected == old(selected) &&
        originalVideoUrl == old(originalVideoUrl) && videoUrl == old(videoUrl)
      ensures response.Ok? && (response.value.status != Some("ok") || response.value.streams.None?) ==>
        error == NoStreams &&
        data == old(data) && qualities == old(qualities) && selected == old(selected) &&
        originalVideoUrl == old(originalVideoUrl) && videoUrl == old(videoUrl)
      ensures response.Ok? && response.value.status == Some("ok") && response.value.streams.Some? ==>
        var d := response.value;
        var list := QualityList(QualityNames(d.availableQualities, d.streams.value), d.streams.value);
        data == Some(d) && qualities == list &&
        (|list| == 0 ==>
           selected == None && error == NoBestQuality &&
           originalVideoUrl == old(originalVideoUrl) && videoUrl == old(videoUrl)) &&
        (|list| > 0 ==>
           selected == Some(list[0]) &&
           if list[0].url.None? || list[0].url.value == "" then
             error == NoStreamUrl && originalVideoUrl == old(originalVideoUrl) && videoUrl == old(videoUrl)
           else
             error == "" && originalVideoUrl == list[0].url.value &&
             videoUrl == VideoProxyUrl(proxy, list[0].url.value))
    {
      error := "";
      if response.Err? {
        error := ErrorText(response.error);
        return;
      }
      var d := response.value;
      if d.status != Some("ok") || d.streams.None? {
        error := NoStreams;
        return;
      }
      data := Some(d);
      var names := QualityNames(d.availableQualities, d.streams.value);
      qualities := QualityList(names, d.streams.value);
      if |qualities| == 0 {
        selected := None;
        error := NoBestQuality;
        return;
      }
      var best := qualities[0];
      selected := Some(best);
      if best.url.None? || best.url.value == "" {
        error := NoStreamUrl;
        return;
      }
      originalVideoUrl := best.url.value;
      videoUrl := VideoProxyUrl(proxy, best.url.value);
    }

    /** `changeQuality`: nothing happens before an answer was accepted or for an entry
        without a URL; otherwise the entry is selected and its stream played. */
    method ChangeQuality(quality: Option<PrimeQuality>, proxy: string)
      modifies this
      ensures data.None? || quality.None? || quality.value.url.None? || quality.value.url.value == "" ==>
        selected == old(selected) && originalVideoUrl == old(originalVideoUrl) && videoUrl == old(videoUrl)
      ensures !(data.None? || quality.None? || quality.value.url.None? || quality.value.url.value == "") ==>
        selected == quality && originalVideoUrl == quality.value.url.value &&
        videoUrl == VideoProxyUrl(proxy, quality.value.url.value)
      ensures data == old(data) && qualities == old(qualities) && error == old(error)
    {
      if data.None? || quality.None? || quality.value.url.None? || quality.value.url.value == "" {
        return;
      }
      selected := quality;
      originalVideoUrl := quality.value.url.value;
      videoUrl := VideoProxyUrl(proxy, quality.value.url.value);
    }
  }
}
