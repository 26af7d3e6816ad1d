/** The watch overlay of the movie and TV pages: the source list with its ad and sandbox
    flags, and the previous/next episode buttons, which step within a season and cross to
    the neighbouring season at either end. */
module Watch {

  import opened Wrappers
  import opened Numbers
  import opened Sorting
  import PlayerSpeed

  // ---- the embed sources ----

  const Sources: seq<string> := ["Native", "VidLink", "VidsrcXYZ", "VidFast", "Videasy", "VidsrcSU", "Vidora"]
  const SourcesWithAds: seq<string> := ["VidLink", "VidsrcXYZ", "VidFast"]
  const SourcesWithSandbox: seq<string> := ["Videasy", "VidsrcSU"]

  /** `sourceHasAds(source)`. */
  predicate SourceHasAds(source: string) { source in SourcesWithAds }

  /** `sourceNeedsSandbox(source)`. */
  predicate SourceNeedsSandbox(source: string) { source in SourcesWithSandbox }

  /** No source both shows the ad notice and runs sandboxed; both kinds are listed
      sources, and the default Native source is neither. */
  lemma SourceFlags(source: string)
    ensures !(SourceHasAds(source) && SourceNeedsSandbox(source))
    ensures SourceHasAds(source) || SourceNeedsSandbox(source) ==> source in Sources
    ensures !SourceHasAds("Native") && !SourceNeedsSandbox("Native")
  {
  }

  // ---- seasons ----

  /** `seasons.filter(s => s.season_number > 0)`, on the season numbers. */
  function Numbered(seasons: seq<int>): (r: seq<int>)
    ensures forall x :: x in r <==> x in seasons && x > 0
    ensures multiset(r) <= multiset(seasons)
  {
    if |seasons| == 0 then []
    else
      assert seasons == [seasons[0]] + seasons[1..];
      (if seasons[0] > 0 then [seasons[0]] else []) + Numbered(seasons[1..])
  }

  function Identity(x: int): int { x }

  /** The seasons the buttons can reach: the numbered ones, in ascending order. */
  function AvailableSeasons(seasons: seq<int>): seq<int> {
    SortAsc(Numbered(seasons), Identity)
  }

  /** They are exactly the numbered seasons, each as often as listed, in ascending order. */
  lemma AvailableSeasonsProps(seasons: seq<int>)
    ensures var a := AvailableSeasons(seasons);
      multiset(a) == multiset(Numbered(seasons)) &&
      (forall x :: x in a <==> x in seasons && x > 0) &&
      (forall i, j :: 0 <= i < j < |a| ==> a[i] <= a[j])
  {
    var a := AvailableSeasons(seasons);
    SortAscProps(Numbered(seasons), Identity);
    forall x ensures x in a <==> x in Numbered(seasons) {
      assert x in a <==> x in multiset(a);
    }
  }

  // ---- episodes ----

  datatype Episode = Episode(episodeNumber: int, name: string)

  /** A season's details as fetched; `episodes` may be missing. */
  datatype SeasonDetails = SeasonDetails(episodes: Option<seq<Episode>>)

  /** `episodes?.find(ep => ep.episode_number === n)`. */
  function FindEpisode(episodes: seq<Episode>, n: int): (r: Option<Episode>)
    ensures r.Some? <==> exists k :: 0 <= k < |episodes| && episodes[k].episodeNumber == n
    ensures r.Some? ==> r.value in episodes && r.value.episodeNumber == n
  {
    if |episodes| == 0 then None
    else if episodes[0].episodeNumber == n then Some(episodes[0])
    else
      var r := FindEpisode(episodes[1..], n);
      assert forall k :: 1 <= k < |episodes| ==> episodes[k] == episodes[1..][k - 1];
      r
  }

  /** `episodeData?.name || \`Episode ${n}\``: the listed non-empty name, else a generic one. */
  function EpisodeTitle(details: SeasonDetails, n: int): string {
    var found := if details.episodes.Some? then FindEpisode(details.episodes.value, n) else None;
    if found.Some? && found.value.name != "" then found.value.name else "Episode " + IntToString(n)
  }

  /** `episodes?.length || 0`. */
  function EpisodeCount(details: SeasonDetails): nat {
    if details.episodes.Some? then |details.episodes.value| else 0
  }

  // ---- where the buttons lead ----

  /** Where a button leads: another episode of the same season, or a neighbouring season
      (whose details are then fetched). */
  datatype Step = WithinSeason(episode: int) | ToSeason(seasonNumber: int)

  /** The step `goToPreviousEpisode` takes, if any. */
  function PreviousStep(isTv: bool, details: Option<SeasonDetails>, seasons: seq<int>, season: int, episode: int): Option<Step> {
    if !isTv || details.None? then None
    else if episode > 1 then Some(WithinSeason(episode - 1))
    else
      var available := AvailableSeasons(seasons);
      var i := PlayerSpeed.FirstIndex(available, season);
      if i > 0 then Some(ToSeason(available[i - 1])) else None
  }

  /** The step `goToNextEpisode` takes, if any. */
  function NextStep(isTv: bool, details: Option<SeasonDetails>, seasons: seq<int>, season: int, episode: int): Option<Step> {
    if !isTv || details.None? then None
    else if episode < EpisodeCount(details.value) then Some(WithinSeason(episode + 1))
    else
      var available := AvailableSeasons(seasons);
      var i := PlayerSpeed.FirstIndex(available, season);
      if i < |available| - 1 then
        SortDescLength(Numbered(seasons), Negated(Identity));
        Some(ToSeason(available[i + 1]))
      else None
  }

  /** `canGoToPrevious()`; unlike the button's handler it does not look at the season
      details. */
  predicate CanGoToPrevious(isTv: bool, seasons: seq<int>, season: int, episode: int) {
    isTv && (episode > 1 || PlayerSpeed.FirstIndex(AvailableSeasons(seasons), season) > 0)
  }

  /** `canGoToNext()`. */
  predicate CanGoToNext(isTv: bool, details: Option<SeasonDetails>, seasons: seq<int>, season: int, episode: int) {
    isTv && details.Some? &&
    (episode < EpisodeCount(details.value) ||
     PlayerSpeed.FirstIndex(AvailableSeasons(seasons), season) < |AvailableSeasons(seasons)| - 1)
  }

  /** The Next button is enabled exactly when its handler has somewhere to go; the
      Previous button too, once the season details are loaded. */
  lemma ButtonsMatchSteps(isTv: bool, details: Option<SeasonDetails>, seasons: seq<int>, season: int, episode: int)
    ensures CanGoToNext(isTv, details, seasons, season, episode) <==> NextStep(isTv, details, seasons, season, episode).Some?
    ensures details.Some? ==>
      (CanGoToPrevious(isTv, seasons, season, episode) <==> PreviousStep(isTv, details, seasons, season, episode).Some?)
  {
  }

  /** Within a season the buttons move one episode; across seasons they move to the
      neighbouring available season, which is a listed numbered season, earlier for
      Previous and not earlier for Next.  A season missing from the list leads Next to the
      first available season. */
  lemma StepsProps(isTv: bool, details: Option<SeasonDetails>, seasons: seq<int>, season: int, episode: int)
    ensures var p := PreviousStep(isTv, details, seasons, season, episode);
      p.Some? && p.value.WithinSeason? ==> p.value.episode == episode - 1 && episode > 1
    ensures var p := PreviousStep(isTv, details, seasons, season, episode);
      p.Some? && p.value.ToSeason? ==> episode <= 1 && p.value.seasonNumber in seasons && 0 < p.value.seasonNumber <= season
    ensures var n := NextStep(isTv, details, seasons, season, episode);
      n.Some? && n.value.WithinSeason? ==> n.value.episode == episode + 1
    ensures var n := NextStep(isTv, details, seasons, season, episode);
      n.Some? && n.value.ToSeason? ==>
        n.value.seasonNumber in seasons && n.value.seasonNumber > 0 &&
        (season in AvailableSeasons(seasons) ==> n.value.seasonNumber >= season)
    ensures (isTv && details.Some? && episode >= EpisodeCount(details.value) &&
             season !in AvailableSeasons(seasons) && |AvailableSeasons(seasons)| > 0) ==>
      NextStep(isTv, details, seasons, season, episode) == Some(ToSeason(AvailableSeasons(seasons)[0]))
  {
    AvailableSeasonsProps(seasons);
    var a := AvailableSeasons(seasons);
    var i := PlayerSpeed.FirstIndex(a, season);
    if 0 < i {
      assert a[i - 1] in a;
    }
    if 0 <= i < |a| - 1 {
      assert a[i + 1] in a;
    }
    if i == -1 && |a| > 0 {
      assert a[0] in a;
    }
  }

  // ---- the overlay's episode state ----

  /** The episode being watched, its title, the loaded season details, and the
      `onUpdateUrl` calls made, in order. */
  class WatchState {
    var season: int
    var episode: int
    var title: string
    var details: Option<SeasonDetails>
    var urlUpdates: seq<(int, int)>

    constructor(season0: int, episode0: int, title0: string)
      ensures season == season0 && episode == episode0 && title == title0 && details == None && urlUpdates == []
    {
      season := season0;
      episode := episode0;
      title := title0;
      details := None;
      urlUpdates := [];
    }

    /** `goToPreviousEpisode()`: `fetched` is what fetching the previous season's details
        gives.  Crossing to the previous season lands on its last episode (1 when it lists
        none); a failed fetch changes nothing. */
    method GoToPreviousEpisode(isTv: bool, seasons: seq<int>, fetched: Result<SeasonDetails, string>)
      modifies this
      ensures var step := PreviousStep(isTv, old(details), seasons, old(season), old(episode));
        if step.Some? && step.value.WithinSeason? then
          season == old(season) && episode == step.value.episode && details == old(details) &&
          title == EpisodeTitle(old(details).value, episode) && urlUpdates == old(urlUpdates) + [(season, episode)]
        else if step.Some? && fetched.Ok? then
          season == step.value.seasonNumber && details == Some(fetched.value) &&
          episode == (if EpisodeCount(fetched.value) == 0 then 1 else EpisodeCount(fetched.value)) &&
          title == EpisodeTitle(fetched.value, episode) && urlUpdates == old(urlUpdates) + [(season, episode)]
        else
          season == old(season) && episode == old(episode) && title == old(title) &&
          details == old(details) && urlUpdates == old(urlUpdates)
    {
      if !isTv || details.None? {
        return;
      }
      if episode > 1 {
        var newEpisode := episode - 1;
        episode := newEpisode;
        title := EpisodeTitle(details.value, newEpisode);
        urlUpdates := urlUpdates + [(season, newEpisode)];
      } else {
        var availableSeasons := AvailableSeasons(seasons);
        var currentSeasonIndex := PlayerSpeed.FirstIndex(availableSeasons, season);
        if currentSeasonIndex > 0 {
          var previousSeason := availableSeasons[currentSeasonIndex - 1];
          if fetched.Ok? {
            var count := EpisodeCount(fetched.value);
            var lastEpisode := if count == 0 then 1 else count;
            season := previousSeason;
            episode := lastEpisode;
            title := EpisodeTitle(fetched.value, lastEpisode);
            details := Some(fetched.value);
            urlUpdates := urlUpdates + [(previousSeason, lastEpisode)];
          }
        }
      }
    }

    /** `goToNextEpisode()`: crossing to the next season lands on its episode 1. */
    method GoToNextEpisode(isTv: bool, seasons: seq<int>, fetched: Result<SeasonDetails, string>)
      modifies this
      ensures var step := NextStep(isTv, old(details), seasons, old(season), old(episode));
        if step.Some? && step.value.WithinSeason? then
          season == old(season) && episode == step.value.episode && details == old(details) &&
          title == EpisodeTitle(old(details).value, episode) && urlUpdates == old(urlUpdates) + [(season, episode)]
        else if step.Some? && fetched.Ok? then
          season == step.value.seasonNumber && episode == 1 && details == Some(fetched.value) &&
          title == EpisodeTitle(fetched.value, 1) && urlUpdates == old(urlUpdates) + [(season, 1)]
        else
          season == old(season) && episode == old(episode) && title == old(title) &&
          details == old(details) && urlUpdates == old(urlUpdates)
    {
      if !isTv || details.None? {
        return;
      }
      var maxEpisode := EpisodeCount(details.value);
      if episode < maxEpisode {
        var newEpisode := episode + 1;
        episode := newEpisode;
        title := EpisodeTitle(details.value, newEpisode);
        urlUpdates := urlUpdates + [(season, newEpisode)];
      } else {
        var availableSeasons := AvailableSeasons(seasons);
        SortDescLength(Numbered(seasons), Negated(Identity));
        var currentSeasonIndex := PlayerSpeed.FirstIndex(availableSeasons, season);
        if currentSeasonIndex < |availableSeasons| - 1 {
          var nextSeason := availableSeasons[currentSeasonIndex + 1];
          if fetched.Ok? {
            season := nextSeason;
            episode := 1;
            title := EpisodeTitle(fetched.value, 1);
            details := Some(fetched.value);
            urlUpdates := urlUpdates + [(nextSeason, 1)];
          }
        }
      }
    }
  }
}
