/** The Xprime embed page: asking the Fox and PrimeNet backends for a stream, choosing
    between them (a manual choice, or the first to answer), and the proxied address. */
module Xprime {

  import opened Wrappers
  import opened Text
  import opened Numbers
  import opened Url
  import opened Json
  import opened EmbedRoute
  import opened ZenimeEmbed

  /** What a backend gave: HTTP status and `ok`, and the `url` member of its JSON body. */
  datatype ApiAnswer = ApiAnswer(ok: bool, status: int, url: Option<string>)

  /** A usable stream: the source's name, its URL, the headers the proxy must send, and
      the index of the source in the page's menu. */
  datatype SourceResult = SourceResult(source: string, url: string, headers: seq<(string, string)>,
                                       sourceIndex: nat)

  /** The query parameters of the Fox request: the id, then season and episode for a
      series. */
  function FoxParams(tmdbid: string, season: Option<string>, episode: Option<string>): seq<(string, string)> {
    [("id", tmdbid)] + (if Truthy(season) && Truthy(episode) then [("season", season.value), ("episode", episode.value)] else [])
  }

  /** The PrimeNet request URL. */
  function PrimenetApiUrl(tmdbid: string, season: Option<string>, episode: Option<string>): string {
    if Truthy(season) && Truthy(episode) then
      "https://backend.xprime.tv/primenet?id=" + tmdbid + "&season=" + season.value + "&episode=" + episode.value
    else "https://backend.xprime.tv/primenet?id=" + tmdbid
  }

  /** Season and episode are sent exactly for a series, after the id. */
  lemma FoxParamsSeries(tmdbid: string, season: Option<string>, episode: Option<string>)
    ensures FoxParams(tmdbid, season, episode)[0] == ("id", tmdbid)
    ensures MediaType(season, episode) == "tv" ==>
      FoxParams(tmdbid, season, episode) == [("id", tmdbid), ("season", season.value), ("episode", episode.value)]
    ensures MediaType(season, episode) == "movie" ==> FoxParams(tmdbid, season, episode) == [("id", tmdbid)]
    ensures MediaType(season, episode) == "movie" ==>
      PrimenetApiUrl(tmdbid, season, episode) == "https://backend.xprime.tv/primenet?id=" + tmdbid
  {
  }

  /** `fetchVideoFromSource(sourceName)`: None is the `undefined` it returns for any other
      name; `answer` is the backend's answer, or the message of a failed request. */
  function FromSource(sourceName: string, answer: Result<ApiAnswer, string>): Option<Result<SourceResult, string>> {
    if sourceName == "Fox" then
      Some(match answer
        case Err(m) => Err(m)
        case Ok(a) =>
          if !a.ok then Err("Fox API error! status: " + IntToString(a.status))
          else if a.url.None? || a.url.value == "" then Err("No video URL found in Fox response")
          else Ok(SourceResult("fox", a.url.value, [("origin", "https://xprime.tv")], 1)))
    else if sourceName == "PrimeNet" then
      Some(match answer
        case Err(m) => Err(m)
        case Ok(a) =>
          if !a.ok then Err("PrimeNet API error! status: " + IntToString(a.status))
          else if a.url.None? || a.url.value == "" then Err("No video URL found in PrimeNet response")
          else Ok(SourceResult("primenet", a.url.value, [("referer", "https://xprime.tv/")], 0)))
    else None
  }

  /** Each source answers with its own name, menu index and header, and with the URL of
      the backend's body; it fails exactly on a failed request, a non-OK status or a
      missing URL. */
  lemma FromSourceShapes(answer: Result<ApiAnswer, string>)
    ensures FromSource("Fox", answer).Some? && FromSource("PrimeNet", answer).Some?
    ensures FromSource("Fox", answer).value.Ok? <==>
      answer.Ok? && answer.value.ok && answer.value.url.Some? && answer.value.url.value != ""
    ensures FromSource("PrimeNet", answer).value.Ok? <==>
      answer.Ok? && answer.value.ok && answer.value.url.Some? && answer.value.url.value != ""
    ensures FromSource("Fox", answer).value.Ok? ==>
      FromSource("Fox", answer).value.value == SourceResult("fox", answer.value.url.value, [("origin", "https://xprime.tv")], 1)
    ensures FromSource("PrimeNet", answer).value.Ok? ==>
      FromSource("PrimeNet", answer).value.value == SourceResult("primenet", answer.value.url.value, [("referer", "https://xprime.tv/")], 0)
  {
  }

  /** Any other source name yields nothing. */
  lemma FromSourceUnknown(sourceName: string, answer: Result<ApiAnswer, string>)
    requires sourceName != "Fox" && sourceName != "PrimeNet"
    ensures FromSource(sourceName, answer).None?
  {
  }

  /** What reading `.source` of `undefined` throws. */
  const UndefinedResult := "Cannot read properties of undefined (reading 'source')"

  /** The result `fetchVideoUrl` goes on with, or the error it shows.  A manual choice
      other than "Auto" asks that source only; otherwise both are asked and
      `Promise.any` takes the first to succeed, `foxFirst` saying which one settles first
      when both do; when both fail the messages are listed in the order asked. */
  function Choose(manual: Option<string>, fox: Result<ApiAnswer, string>, primenet: Result<ApiAnswer, string>,
                  foxFirst: bool): Result<SourceResult, string>
  {
    if Truthy(manual) && manual.value != "Auto" then
      var r := FromSource(manual.value, if manual.value == "Fox" then fox else primenet);
      if r.None? then Err(UndefinedResult)
      else if r.value.Err? then
        Err(if r.value.error == "" then "Failed to load video from selected source" else r.value.error)
      else r.value
    else
      var f, p := FromSource("Fox", fox).value, FromSource("PrimeNet", primenet).value;
      if f.Ok? && (p.Err? || foxFirst) then f
      else if p.Ok? then p
      else Err("All sources failed: " + f.error + ", " + p.error)
  }

  /** A manual choice of a known source depends on that source alone, and is what that
      source gave. */
  lemma ManualChoiceAlone(name: string, fox: Result<ApiAnswer, string>, primenet: Result<ApiAnswer, string>,
                          other: Result<ApiAnswer, string>, foxFirst: bool, order: bool)
    requires name == "Fox" || name == "PrimeNet"
    ensures name == "Fox" ==> Choose(Some(name), fox, primenet, foxFirst) == Choose(Some(name), fox, other, order)
    ensures name == "PrimeNet" ==> Choose(Some(name), fox, primenet, foxFirst) == Choose(Some(name), other, primenet, order)
    ensures Choose(Some(name), fox, primenet, foxFirst).Ok? ==>
      Choose(Some(name), fox, primenet, foxFirst) == FromSource(name, if name == "Fox" then fox else primenet).value
  {
  }

  /** Without a manual choice the page fails only when both sources fail; it plays Fox
      when Fox succeeds first or alone, and PrimeNet otherwise. */
  lemma AutoChoice(manual: Option<string>, fox: Result<ApiAnswer, string>, primenet: Result<ApiAnswer, string>,
                   foxFirst: bool)
    requires !Truthy(manual) || manual.value == "Auto"
    ensures Choose(manual, fox, primenet, foxFirst).Err? <==>
      FromSource("Fox", fox).value.Err? && FromSource("PrimeNet", primenet).value.Err?
    ensures Choose(manual, fox, primenet, foxFirst).Ok? ==>
      Choose(manual, fox, primenet, foxFirst) ==
        (if FromSource("Fox", fox).value.Ok? && (foxFirst || FromSource("PrimeNet", primenet).value.Err?)
         then FromSource("Fox", fox).value else FromSource("PrimeNet", primenet).value)
    ensures Choose(manual, fox, primenet, foxFirst).Err? ==>
      Choose(manual, fox, primenet, foxFirst).error ==
        "All sources failed: " + FromSource("Fox", fox).value.error + ", " + FromSource("PrimeNet", primenet).value.error
  {
  }

  /** What the page shows: the source used, the menu index, the address played, and the
      error. */
  datatype PageState = PageState(usedSource: string, sourceIndex: nat, videoUrl: string, error: string)

  /** The page's state before any answer: the Fox index is the default. */
  const Initial := PageState("", 1, "", "")

  /** `fetchVideoUrl`'s effect on the page, with `m3u8proxy` the configured proxy. */
  function LoadVideo(state: PageState, m3u8proxy: string, r: Result<SourceResult, string>): PageState {
    match r
    case Ok(res) =>
      PageState(res.source, res.sourceIndex,
                ProxyAddress(m3u8proxy, EncodeURIComponent(res.url), EncodeURIComponent(Stringify(res.headers))), "")
    case Err(e) => PageState("", state.sourceIndex, state.videoUrl, e)
  }

  /** After a success the proxy reads the chosen stream URL back from the played address
      (for an ASCII URL and a proxy address without '?'), and the menu shows the chosen
      source; after a failure the address and menu index stay as they were. */
  lemma LoadVideoProps(state: PageState, m3u8proxy: string, r: Result<SourceResult, string>)
    requires r.Ok? ==> r.value.url != "" && forall i :: 0 <= i < |r.value.url| ==> r.value.url[i] as int < 0x80
    requires forall i :: 0 <= i < |m3u8proxy| ==> m3u8proxy[i] != '?'
    ensures r.Ok? ==>
      var s := LoadVideo(state, m3u8proxy, r);
      GetParam(QueryOf(s.videoUrl), "url") == Some(r.value.url) &&
      s.usedSource == r.value.source && s.sourceIndex == r.value.sourceIndex && s.error == ""
    ensures r.Err? ==>
      var s := LoadVideo(state, m3u8proxy, r);
      s.videoUrl == state.videoUrl && s.sourceIndex == state.sourceIndex && s.usedSource == "" && s.error == r.error
  {
    if r.Ok? {
      CreateProxyUrlRoundTrip(m3u8proxy, r.value.url, r.value.headers);
    }
  }
}
