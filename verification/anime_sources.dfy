/** The anime player's embed sources: the table of servers with a sub and a dub URL
    template each, and the URL of one episode on one server. */
module AnimeSources {

  import opened Wrappers
  import opened Text
  import opened Url
  import opened Templates

  datatype AnimeSource = AnimeSource(id: string, name: string, subUrl: string, dubUrl: string)

  const EpidHole := "{epid}"
  const EpisodeIdHole := "{episodeId}"
  const UrlEpisodeIdHole := "{urlepisodeId}"
  const TmdbIdHole := "{tmdbId}"
  const SeasonHole := "{season}"
  const EpisodeHole := "{episode}"
  const NameHole := "{name}"

  /** `animeSources`, with the placeholders of each template written by name. */
  const Sources: seq<AnimeSource> := [
    AnimeSource("zenime-1", "hd-1", "/e/zenime/" + UrlEpisodeIdHole + "/hd-1/sub", "/e/zenime/" + UrlEpisodeIdHole + "/hd-1/dub"),
    AnimeSource("zenime-2", "hd-2", "/e/zenime/" + UrlEpisodeIdHole + "/hd-2/sub", "/e/zenime/" + UrlEpisodeIdHole + "/hd-2/dub"),
    AnimeSource("zenime-3", "hd-3", "/e/zenime/" + UrlEpisodeIdHole + "/hd-3/sub", "/e/zenime/" + UrlEpisodeIdHole + "/hd-3/dub"),
    AnimeSource("animepahe", "pahe",
                "/embed/animepahe/" + UrlEpisodeIdHole + "/" + NameHole + "/" + SeasonHole + "/" + EpisodeHole,
                "/embed/animepahe/" + UrlEpisodeIdHole + "/" + NameHole + "/" + SeasonHole + "/" + EpisodeHole),
    AnimeSource("aniplay", "hika", "/embed/aniplay/" + UrlEpisodeIdHole + "/" + EpisodeHole + "/sub",
                "/embed/aniplay/" + UrlEpisodeIdHole + "/" + EpisodeHole + "/dub"),
    AnimeSource("megaplaybz-1", "vidplay", "https://megaplay.buzz/stream/s-2/" + EpidHole + "/sub",
                "https://megaplay.buzz/stream/s-2/" + EpidHole + "/dub")
  ]

  /** The fields `getSourceUrl` reads; None is a missing field. */
  datatype EpisodeData = EpisodeData(epid: Option<string>, episodeid: Option<string>, episodeNo: Option<string>)
  datatype AnimeData = AnimeData(tmdbId: Option<string>, season: Option<string>, name: Option<string>)

  /** A value as `replace` and `encodeURIComponent` turn it into text: a missing one is
      "undefined". */
  function Str(v: Option<string>): string {
    if v.Some? then v.value else "undefined"
  }

  /** `v || fallback`: a missing or empty value gives the fallback. */
  function Or(v: Option<string>, fallback: string): (r: string)
    ensures r == fallback <==> v.None? || v.value == "" || v.value == fallback
  {
    if v.Some? && v.value != "" then v.value else fallback
  }

  /** `animeSources.find(src => src.id === sourceId)`. */
  function FindSource(sources: seq<AnimeSource>, sourceId: string): Option<AnimeSource> {
    if |sources| == 0 then None
    else if sources[0].id == sourceId then Some(sources[0])
    else FindSource(sources[1..], sourceId)
  }

  /** A server is found exactly when the table has one with that id, and the one found
      has that id. */
  lemma {:induction false} FindSourceFound(sources: seq<AnimeSource>, sourceId: string)
    ensures FindSource(sources, sourceId).Some? <==> exists k :: 0 <= k < |sources| && sources[k].id == sourceId
    ensures FindSource(sources, sourceId).Some? ==>
      FindSource(sources, sourceId).value in sources && FindSource(sources, sourceId).value.id == sourceId
    decreases |sources|
  {
    if |sources| > 0 && sources[0].id != sourceId {
      FindSourceFound(sources[1..], sourceId);
      assert forall k :: 1 <= k < |sources| ==> sources[k] == sources[1..][k - 1];
    }
  }

  /** The server found is the first with the id. */
  lemma {:induction false} FindSourceAt(sources: seq<AnimeSource>, sourceId: string, k: nat)
    requires k < |sources| && sources[k].id == sourceId
    requires forall j :: 0 <= j < k ==> sources[j].id != sourceId
    ensures FindSource(sources, sourceId) == Some(sources[k])
    decreases k
  {
    if k > 0 {
      FindSourceAt(sources[1..], sourceId, k - 1);
    }
  }

  /** The template a language selects: the dub URL for "dub", else the sub URL. */
  function TemplateFor(source: AnimeSource, language: string): string {
    if language == "dub" then source.dubUrl else source.subUrl
  }

  /** The seven values in the order of the `replace` chain. */
  function Values(episode: EpisodeData, anime: AnimeData): seq<(string, string)> {
    [(EpidHole, Str(episode.epid)),
     (EpisodeIdHole, Or(episode.episodeid, "")),
     (UrlEpisodeIdHole, EncodeURIComponent(Or(episode.episodeid, ""))),
     (TmdbIdHole, Or(anime.tmdbId, "")),
     (SeasonHole, Or(anime.season, "1")),
     (EpisodeHole, Str(episode.episodeNo)),
     (NameHole, EncodeURIComponent(Str(anime.name)))]
  }

  /** `getSourceUrl(sourceId, language, episodeData, animeData)`. */
  function GetSourceUrl(sourceId: string, language: string, episode: EpisodeData, anime: AnimeData): string {
    match FindSource(Sources, sourceId)
    case None => "about:blank"
    case Some(source) => ReplaceChain(TemplateFor(source, language), Values(episode, anime))
  }

  /** `getDefaultSource()`: the first server, which is found again by its id. */
  function DefaultSource(): (r: AnimeSource)
    ensures r.id == "zenime-1" && FindSource(Sources, r.id) == Some(r)
  {
    Sources[0]
  }

  /** The encoded values hold no '{'. */
  lemma EncodedNoBrace(s: string)
    ensures NoBrace(EncodeURIComponent(s))
  {
    EncodeURIComponentChars(s);
  }

  /** The values are fit for `ReplaceChainFills` when the unencoded ones hold no '{'. */
  lemma ValuesFit(episode: EpisodeData, anime: AnimeData)
    requires NoBrace(Str(episode.epid)) && NoBrace(Or(episode.episodeid, "")) && NoBrace(Or(anime.tmdbId, ""))
    requires NoBrace(Or(anime.season, "1")) && NoBrace(Str(episode.episodeNo))
    ensures var v := Values(episode, anime);
      forall k :: 0 <= k < |v| ==> IsPlaceholder(v[k].0) && NoBrace(v[k].1)
  {
    EncodedNoBrace(Or(episode.episodeid, ""));
    EncodedNoBrace(Str(anime.name));
    Placeholders();
  }

  lemma Placeholders()
    ensures IsPlaceholder(EpidHole) && IsPlaceholder(EpisodeIdHole) && IsPlaceholder(UrlEpisodeIdHole)
    ensures IsPlaceholder(TmdbIdHole) && IsPlaceholder(SeasonHole) && IsPlaceholder(EpisodeHole) && IsPlaceholder(NameHole)
  {
  }

  /** An id missing from the table gives the blank page. */
  lemma UnknownSourceIsBlank(sourceId: string, language: string, episode: EpisodeData, anime: AnimeData)
    requires forall k :: 0 <= k < |Sources| ==> Sources[k].id != sourceId
    ensures GetSourceUrl(sourceId, language, episode, anime) == "about:blank"
  {
    FindSourceFound(Sources, sourceId);
  }
}
