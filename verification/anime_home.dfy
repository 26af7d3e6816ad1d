/** The anime home page: the spotlight carousel, the category tabs whose lists are fetched
    once each, and the three five-item sidebar lists. */
module AnimeHome {

  import opened Wrappers

  // ---- the spotlight carousel ----

  /** `(prev + 1) % spotlights.length`; None is the `NaN` an empty list gives. */
  function NextSpotlight(prev: nat, count: nat): (r: Option<nat>)
    ensures r.Some? <==> count > 0
    ensures r.Some? ==> r.value < count
  {
    if count == 0 then None else Some((prev + 1) % count)
  }

  /** `(prev - 1 + spotlights.length) % spotlights.length`. */
  function PreviousSpotlight(prev: nat, count: nat): (r: Option<nat>)
    ensures r.Some? <==> count > 0
    ensures r.Some? ==> r.value < count
  {
    if count == 0 then None else Some((prev - 1 + count) % count)
  }

  /** From a shown spotlight, the arrows undo each other, and a step moves one place round
      the ring. */
  lemma SpotlightStepsUndo(i: nat, count: nat)
    requires i < count
    ensures PreviousSpotlight(NextSpotlight(i, count).value, count) == Some(i)
    ensures NextSpotlight(PreviousSpotlight(i, count).value, count) == Some(i)
    ensures NextSpotlight(i, count) == Some(if i == count - 1 then 0 else i + 1)
    ensures PreviousSpotlight(i, count) == Some(if i == 0 then count - 1 else i - 1)
  {
    if i == count - 1 { ModOnce(i + 1, count); } else { ModSmall(i + 1, count); }
    if i == 0 { ModSmall(i - 1 + count, count); } else { ModOnce(i - 1 + count, count); }
    var n := NextSpotlight(i, count).value;
    if n == 0 { ModSmall(n - 1 + count, count); } else { ModOnce(n - 1 + count, count); }
    var p := PreviousSpotlight(i, count).value;
    if p == count - 1 { ModOnce(p + 1, count); } else { ModSmall(p + 1, count); }
  }

  lemma ModSmall(x: int, n: int)
    requires 0 <= x < n
    ensures x % n == x
  {
  }

  lemma ModOnce(x: int, n: int)
    requires 0 < n <= x < 2 * n
    ensures x % n == x - n
  {
    ModSmall(x - n, n);
    assert x == n + (x - n);
  }

  /** The carousel: how many spotlights there are, the one shown (None once it is `NaN`),
      and whether the seven-second advance is running. */
  class Carousel {
    var count: nat
    var index: Option<nat>
    var advancing: bool

    constructor()
      ensures count == 0 && index == Some(0) && !advancing
    {
      count := 0;
      index := Some(0);
      advancing := false;
    }

    /** The effect on a new spotlight list: the old advance is cleared, and a new one starts
        only when there is more than one spotlight; the shown index is kept. */
    method SetSpotlights(n: nat)
      modifies this
      ensures count == n && index == old(index) && advancing == (n > 1)
    {
      count := n;
      advancing := false;
      if n > 1 {
        advancing := true;
      }
    }

    /** One firing of the advance. */
    method Tick()
      requires advancing
      modifies this
      ensures count == old(count) && advancing
      ensures index == (if old(index).Some? then NextSpotlight(old(index).value, count) else None)
    {
      if index.Some? {
        index := NextSpotlight(index.value, count);
      }
    }

    /** The right arrow: the next spotlight, and the advance restarted. */
    method ShowNextSpotlight()
      modifies this
      ensures count == old(count) && advancing
      ensures index == (if old(index).Some? then NextSpotlight(old(index).value, count) else None)
    {
      if index.Some? {
        index := NextSpotlight(index.value, count);
      }
      advancing := true;
    }

    /** The left arrow. */
    method ShowPreviousSpotlight()
      modifies this
      ensures count == old(count) && advancing
      ensures index == (if old(index).Some? then PreviousSpotlight(old(index).value, count) else None)
    {
      if index.Some? {
        index := PreviousSpotlight(index.value, count);
      }
      advancing := true;
    }
  }

  // ---- the category tabs ----

  /** The API endpoint of a category tab. */
  function CategoryEndpoint(category: string): (endpoint: string)
    ensures endpoint in {"top-airing", "most-popular", "most-favorite"}
    ensures endpoint == "most-popular" <==> category == "popular"
    ensures endpoint == "most-favorite" <==> category == "toprated"
  {
    if category == "trending" then "top-airing"
    else if category == "popular" then "most-popular"
    else if category == "toprated" then "most-favorite"
    else "top-airing"
  }

  /** What `fetchAnimeData(endpoint)` gives: an error thrown, or the `results` field
      (None when it is missing). */
  type Fetched = Result<Option<seq<string>>, string>

  /** The list of a successful fetch: the results, or [] when they are missing. */
  function ResultsOf(results: Option<seq<string>>): (r: seq<string>)
    ensures results.Some? ==> r == results.value
    ensures results.None? ==> r == []
  {
    if results.Some? then results.value else []
  }

  /** The tab lists: the categories already loaded (`loadedCategories`), the list shown,
      and the endpoints fetched, in order. */
  class CategoryLists {
    var loaded: set<string>
    var animeData: seq<string>
    var fetches: seq<string>

    constructor()
      ensures loaded == {} && animeData == [] && fetches == []
    {
      loaded := {};
      animeData := [];
      fetches := [];
    }

    /** The trending half of `loadInitialData`: on success the trending list is shown and
        trending counts as loaded; a failure changes neither. */
    method LoadInitial(fetched: Fetched)
      modifies this
      ensures fetches == old(fetches) + ["top-airing"]
      ensures fetched.Ok? ==> animeData == ResultsOf(fetched.value) && loaded == old(loaded) + {"trending"}
      ensures fetched.Err? ==> animeData == old(animeData) && loaded == old(loaded)
    {
      fetches := fetches + ["top-airing"];
      if fetched.Ok? {
        animeData := ResultsOf(fetched.value);
        loaded := loaded + {"trending"};
      }
    }

    /** `loadAnimeData(category)`: nothing for a loaded category; otherwise its endpoint is
        fetched, and the category is recorded as loaded only when the fetch succeeds (a
        failure shows an empty list). */
    method LoadAnimeData(category: string, fetched: Fetched)
      modifies this
      ensures category in old(loaded) ==>
        loaded == old(loaded) && animeData == old(animeData) && fetches == old(fetches)
      ensures category !in old(loaded) ==> fetches == old(fetches) + [CategoryEndpoint(category)]
      ensures category !in old(loaded) && fetched.Ok? ==>
        animeData == ResultsOf(fetched.value) && loaded == old(loaded) + {category}
      ensures category !in old(loaded) && fetched.Err? ==> animeData == [] && loaded == old(loaded)
    {
      if category in loaded {
        return;
      }
      var endpoint := CategoryEndpoint(category);
      fetches := fetches + [endpoint];
      if fetched.Ok? {
        animeData := ResultsOf(fetched.value);
        loaded := loaded + {category};
      } else {
        animeData := [];
      }
    }
  }

  // ---- the sidebar ----

  /** `data?.results?.slice(0, 5) || []`. */
  function SidebarList(results: Option<seq<string>>): (r: seq<string>)
    ensures |r| <= 5
    ensures results.Some? ==> r <= results.value && |r| == if |results.value| < 5 then |results.value| else 5
    ensures results.None? ==> r == []
  {
    if results.None? then [] else if |results.value| <= 5 then results.value else results.value[..5]
  }
}
