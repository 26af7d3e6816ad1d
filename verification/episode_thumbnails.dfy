/** Episode thumbnails: one entry per episode number 1..episodeCount, filled from the first
    TMDB episode with that number. The TMDB searches and the season request are
    parameters; the image base URL is the configured one. */
module EpisodeThumbnails {

  import opened Wrappers
  import opened Numbers

  /** The fields read from one episode of a TMDB season; None is a missing field. */
  datatype TmdbEpisode = TmdbEpisode(episodeNumber: int, stillPath: Option<string>, name: Option<string>,
                                     overview: Option<string>, airDate: Option<string>)

  /** One pushed thumbnail entry. */
  datatype Thumbnail = Thumbnail(episodeNo: nat, thumbnail: Option<string>, name: string,
                                 description: Option<string>, airDate: Option<string>)

  /** What `findTmdbIdForSeason` gives: null, or an object with optional fields. */
  datatype SeasonData = SeasonData(tmdbId: Option<string>, seasonNumber: Option<int>)

  /** The season request `fetchTmdb('/tv/{tmdbId}/season/{season}')`: an error, or the
      `episodes` field (None when it is missing). */
  type SeasonFetch = (string, int) -> Result<Option<seq<TmdbEpisode>>, string>

  predicate Truthy(v: Option<string>) { v.Some? && v.value != "" }

  /** `v || null`. */
  function OrNull(v: Option<string>): (r: Option<string>)
    ensures r.Some? <==> Truthy(v)
    ensures r.Some? ==> r == v
  {
    if Truthy(v) then v else None
  }

  /** `episodes.find(ep => ep.episode_number === n)`. */
  function FindEpisode(episodes: seq<TmdbEpisode>, n: int): Option<TmdbEpisode> {
    if |episodes| == 0 then None
    else if episodes[0].episodeNumber == n then Some(episodes[0])
    else FindEpisode(episodes[1..], n)
  }

  /** The episode found is the first with the number; none is found only when no episode
      has it. */
  lemma {:induction false} FindEpisodeFirst(episodes: seq<TmdbEpisode>, n: int)
    ensures FindEpisode(episodes, n).None? <==> forall k :: 0 <= k < |episodes| ==> episodes[k].episodeNumber != n
    ensures FindEpisode(episodes, n).Some? ==>
      exists k :: (0 <= k < |episodes| && episodes[k] == FindEpisode(episodes, n).value &&
                   episodes[k].episodeNumber == n && forall j :: 0 <= j < k ==> episodes[j].episodeNumber != n)
  {
    if |episodes| > 0 && episodes[0].episodeNumber != n {
      FindEpisodeFirst(episodes[1..], n);
      assert forall k :: 1 <= k < |episodes| ==> episodes[k] == episodes[1..][k - 1];
      if FindEpisode(episodes, n).Some? {
        var k :| 0 <= k < |episodes[1..]| && episodes[1..][k] == FindEpisode(episodes, n).value &&
          episodes[1..][k].episodeNumber == n && forall j :: 0 <= j < k ==> episodes[1..][j].episodeNumber != n;
        assert episodes[k + 1] == FindEpisode(episodes, n).value;
        assert forall j :: 0 <= j < k + 1 ==> episodes[j].episodeNumber != n by {
          forall j | 0 <= j < k + 1 ensures episodes[j].episodeNumber != n {
            if j > 0 { assert episodes[j] == episodes[1..][j - 1]; }
          }
        }
      }
    }
  }

  /** `Episode ${n}`. */
  function DefaultName(n: nat): string {
    "Episode " + NatToString(n)
  }

  /** `getTmdbImage(path, 'w300')`. */
  function TmdbImage(imageBase: string, path: string): string {
    imageBase + "w300" + path
  }

  /** The entry for episode n (`find(...) || {}`: without a match every field is missing). */
  function ThumbnailFor(episodes: seq<TmdbEpisode>, n: nat, imageBase: string): Thumbnail {
    var ep := FindEpisode(episodes, n);
    var still := if ep.Some? then ep.value.stillPath else None;
    var name := if ep.Some? then ep.value.name else None;
    Thumbnail(n,
              if Truthy(still) then Some(TmdbImage(imageBase, still.value)) else None,
              if Truthy(name) then name.value else DefaultName(n),
              if ep.Some? then OrNull(ep.value.overview) else None,
              if ep.Some? then OrNull(ep.value.airDate) else None)
  }

  /** An entry without a TMDB episode of its number has the default name and no image,
      description or air date; one with a match takes its non-empty name and still. */
  lemma ThumbnailFields(episodes: seq<TmdbEpisode>, n: nat, imageBase: string)
    ensures var t := ThumbnailFor(episodes, n, imageBase);
      t.episodeNo == n && t.name != "" &&
      ((forall k :: 0 <= k < |episodes| ==> episodes[k].episodeNumber != n) ==>
        t == Thumbnail(n, None, DefaultName(n), None, None)) &&
      (FindEpisode(episodes, n).Some? && Truthy(FindEpisode(episodes, n).value.name) ==>
        t.name == FindEpisode(episodes, n).value.name.value) &&
      (FindEpisode(episodes, n).Some? && Truthy(FindEpisode(episodes, n).value.stillPath) ==>
        t.thumbnail == Some(TmdbImage(imageBase, FindEpisode(episodes, n).value.stillPath.value)))
  {
    FindEpisodeFirst(episodes, n);
    assert |DefaultName(n)| > 0;
  }

  /** `fetchTmdbThumbnails(tmdbId, episodeCount, seasonNumber)`: null without an id or when
      the request fails, else one entry per episode number 1..episodeCount in order. */
  method FetchTmdbThumbnails(tmdbId: Option<string>, episodeCount: int, seasonNumber: int,
                             fetchSeason: SeasonFetch, imageBase: string) returns (r: Option<seq<Thumbnail>>)
    ensures !Truthy(tmdbId) ==> r.None?
    ensures Truthy(tmdbId) ==> (r.None? <==> fetchSeason(tmdbId.value, seasonNumber).Err?)
    ensures r.Some? ==>
      var fetched := fetchSeason(tmdbId.value, seasonNumber).value;
      var episodes := if fetched.Some? then fetched.value else [];
      |r.value| == (if episodeCount < 0 then 0 else episodeCount) &&
      forall k :: 0 <= k < |r.value| ==> r.value[k] == ThumbnailFor(episodes, k + 1, imageBase)
  {
    if !Truthy(tmdbId) {
      return None;
    }
    var data := fetchSeason(tmdbId.value, seasonNumber);
    if data.Err? {
      return None;
    }
    var episodes := if data.value.Some? then data.value.value else [];
    var thumbnails: seq<Thumbnail> := [];
    var episodeNo := 1;
    while episodeNo <= episodeCount
      invariant 1 <= episodeNo && |thumbnails| == episodeNo - 1
      invariant if episodeCount >= 0 then episodeNo <= episodeCount + 1 else episodeNo == 1
      invariant forall k :: 0 <= k < |thumbnails| ==> thumbnails[k] == ThumbnailFor(episodes, k + 1, imageBase)
      decreases episodeCount - episodeNo
    {
      thumbnails := thumbnails + [ThumbnailFor(episodes, episodeNo, imageBase)];
      episodeNo := episodeNo + 1;
    }
    r := Some(thumbnails);
  }

  /** The TMDB show and season `fetchEpisodeThumbnails` asks for: the season search's id
      and season (`seasonNumber` when it has none), else the title search's id with
      `seasonNumber`; None when neither search finds an id or a search fails. */
  function ThumbnailTarget(seasonNumber: int, seasonData: Result<Option<SeasonData>, string>,
                           titleId: Result<Option<string>, string>): Option<(string, int)> {
    if seasonData.Err? then None
    else if seasonData.value.Some? && Truthy(seasonData.value.value.tmdbId) then
      var s := seasonData.value.value.seasonNumber;
      Some((seasonData.value.value.tmdbId.value, if s.Some? && s.value != 0 then s.value else seasonNumber))
    else if titleId.Err? || !Truthy(titleId.value) then None
    else Some((titleId.value.value, seasonNumber))
  }

  /** `fetchEpisodeThumbnails(episodeCount, seasonNumber = 1, title = '')`: null without an
      episode count or a title, else the thumbnails of the show and season found. */
  method FetchEpisodeThumbnails(episodeCount: int, seasonNumber: Option<int>, title: Option<string>,
                                seasonData: Result<Option<SeasonData>, string>, titleId: Result<Option<string>, string>,
                                fetchSeason: SeasonFetch, imageBase: string) returns (r: Option<seq<Thumbnail>>)
    ensures episodeCount == 0 || !Truthy(title) ==> r.None?
    ensures var target := ThumbnailTarget(if seasonNumber.Some? then seasonNumber.value else 1, seasonData, titleId);
      episodeCount != 0 && Truthy(title) ==>
        (target.None? ==> r.None?) &&
        (target.Some? ==> (r.None? <==> fetchSeason(target.value.0, target.value.1).Err?)) &&
        (r.Some? ==> (|r.value| == (if episodeCount < 0 then 0 else episodeCount) &&
                      forall k :: 0 <= k < |r.value| ==> r.value[k].episodeNo == k + 1))
    ensures r.Some? ==>
      var target := ThumbnailTarget(if seasonNumber.Some? then seasonNumber.value else 1, seasonData, titleId);
      target.Some? && fetchSeason(target.value.0, target.value.1).Ok? &&
      var fetched := fetchSeason(target.value.0, target.value.1).value;
      var episodes := if fetched.Some? then fetched.value else [];
      forall k :: 0 <= k < |r.value| ==> r.value[k] == ThumbnailFor(episodes, k + 1, imageBase)
  {
    if episodeCount == 0 || !Truthy(title) {
      return None;
    }
    var season := if seasonNumber.Some? then seasonNumber.value else 1;
    var target := ThumbnailTarget(season, seasonData, titleId);
    if target.None? {
      return None;
    }
    r := FetchTmdbThumbnails(Some(target.value.0), episodeCount, target.value.1, fetchSeason, imageBase);
  }
}
