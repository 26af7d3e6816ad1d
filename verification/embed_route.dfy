/** The route parameters of the embed pages (`/e/.../:tmdbid/:season?/:episode?`): an
    absent optional segment is `undefined`, a present one a non-empty string. */
module EmbedRoute {

  import opened Wrappers

  /** A parameter in a JavaScript condition: present and not "". */
  predicate Truthy(p: Option<string>) { p.Some? && p.value != "" }

  /** `season && episode ? 'tv' : 'movie'`. */
  function MediaType(season: Option<string>, episode: Option<string>): (t: string)
    ensures t == "tv" || t == "movie"
    ensures t == "tv" <==> Truthy(season) && Truthy(episode)
  {
    if Truthy(season) && Truthy(episode) then "tv" else "movie"
  }
}
