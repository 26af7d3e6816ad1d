/** The scraping rules of the anime API client: the page count of a listing, the slug
    `formatTitle` builds, the show id and season read back from an anime id, and the
    episode list built from the episode links. */
module AnimeData {

  import opened Wrappers
  import opened Text
  import opened Numbers

  // ---- the page count ----

  /** `parseInt(x) || 1`: NaN and 0 give 1. */
  function OrOne(v: Option<int>): (r: int)
    ensures r != 0
    ensures v.Some? && v.value != 0 ==> r == v.value
  {
    if v.Some? && v.value != 0 then v.value else 1
  }

  /** `href.split('=').pop()`. */
  function AfterLastEquals(href: string): string {
    var parts := Split(href, '=');
    parts[|parts| - 1]
  }

  /** `totalPages`: the number after the last '=' of the "Last" link, else of the "Next"
      link, else the text of the active page, else 1. A link counts only when it has a
      non-empty href; None is an element or attribute that is not there. */
  function TotalPages(lastHref: Option<string>, nextHref: Option<string>, activeText: Option<string>): (r: int)
    ensures r != 0
    ensures lastHref.None? && nextHref.None? && activeText.None? ==> r == 1
  {
    if lastHref.Some? && lastHref.value != "" then OrOne(ParseInt(AfterLastEquals(lastHref.value)))
    else if nextHref.Some? && nextHref.value != "" then OrOne(ParseInt(AfterLastEquals(nextHref.value)))
    else if activeText.Some? then OrOne(ParseInt(Trim(activeText.value)))
    else 1
  }

  /** A "Last" link `...=<n>` gives n pages, whatever the other links say; without a
      usable "Last" link a "Next" link `...=<n>` does. */
  lemma {:induction false} TotalPagesFromLinks(prefix: string, n: nat, other: Option<string>, active: Option<string>)
    requires n > 0
    ensures TotalPages(Some(prefix + "=" + NatToString(n)), other, active) == n
    ensures TotalPages(None, Some(prefix + "=" + NatToString(n)), active) == n
  {
    var d := NatToString(n);
    assert forall i :: 0 <= i < |d| ==> d[i] != '=' by { assert AllDigits(d); }
    SplitLast(prefix, '=', d);
    assert prefix + "=" + d == prefix + ['='] + d;
    ParseNatToString(n);
  }

  // ---- formatTitle ----

  /** A character `/[^\w\s-]/g` does not remove. */
  predicate Kept(c: char) { IsWordChar(c) || IsSpace(c) || c == '-' }

  /** A character of a finished slug. */
  predicate SlugChar(c: char) { ('a' <= c <= 'z') || IsDigit(c) || c == '_' || c == '-' }

  predicate AllSlugChars(s: string) { forall i :: 0 <= i < |s| ==> SlugChar(s[i]) }

  predicate SlugOrSpace(s: string) { forall i :: 0 <= i < |s| ==> SlugChar(s[i]) || IsSpace(s[i]) }

  predicate NoDoubleDash(s: string) { forall i :: 0 <= i < |s| - 1 ==> s[i] != '-' || s[i + 1] != '-' }

  /** What `formatTitle` can put before the id: lower-case word characters and single
      dashes. */
  predicate IsSlug(s: string) { AllSlugChars(s) && NoDoubleDash(s) }

  /** `replace(/[^\w\s-]/g, '')`. */
  function RemoveOthers(s: string): (r: string)
    ensures forall i :: 0 <= i < |r| ==> Kept(r[i])
    ensures (forall i :: 0 <= i < |s| ==> !('A' <= s[i] <= 'Z')) ==> forall i :: 0 <= i < |r| ==> !('A' <= r[i] <= 'Z')
  {
    if |s| == 0 then ""
    else if Kept(s[0]) then [s[0]] + RemoveOthers(s[1..])
    else RemoveOthers(s[1..])
  }

  /** `replace(/\s+/g, '-')`: each run of white space becomes one '-'. */
  function DashSpaces(s: string): (r: string)
    decreases |s|
  {
    if |s| == 0 then ""
    else if IsSpace(s[0]) then "-" + DashSpaces(TrimStart(s[1..]))
    else [s[0]] + DashSpaces(s[1..])
  }

  /** The string after its leading run of '-'. */
  function DropDashes(s: string): (r: string)
    ensures |r| <= |s| && r == s[|s| - |r|..]
    ensures |r| > 0 ==> r[0] != '-'
  {
    if |s| > 0 && s[0] == '-' then DropDashes(s[1..]) else s
  }

  /** `replace(/-+/g, '-')`: each run of '-' becomes one. */
  function CollapseDashes(s: string): (r: string)
    decreases |s|
  {
    if |s| == 0 then ""
    else if s[0] == '-' then "-" + CollapseDashes(DropDashes(s[1..]))
    else [s[0]] + CollapseDashes(s[1..])
  }

  /** The chain of `formatTitle` before the id is appended. */
  function Slug(title: string): string {
    CollapseDashes(DashSpaces(RemoveOthers(ToLower(title))))
  }

  /** `formatTitle(title, id)`: the id alone for a missing or empty title, else the slug of
      the title, '-', and the id. */
  function FormatTitle(title: Option<string>, id: string): string {
    if title.None? || title.value == "" then id else Slug(title.value) + "-" + id
  }

  lemma {:induction false} DashSpacesSlugChars(s: string)
    requires SlugOrSpace(s)
    ensures AllSlugChars(DashSpaces(s))
    decreases |s|
  {
    if |s| > 0 {
      if IsSpace(s[0]) {
        var t := TrimStart(s[1..]);
        TrimStartProps(s[1..]);
        assert forall i :: 0 <= i < |t| ==> t[i] == s[1..][|s| - 1 - |t| + i];
        DashSpacesSlugChars(t);
      } else {
        DashSpacesSlugChars(s[1..]);
      }
    }
  }

  lemma {:induction false} CollapseDashesSlug(s: string)
    requires AllSlugChars(s)
    ensures IsSlug(CollapseDashes(s))
    ensures |s| > 0 ==> |CollapseDashes(s)| > 0 && CollapseDashes(s)[0] == s[0]
    decreases |s|
  {
    if |s| > 0 {
      if s[0] == '-' {
        var t := DropDashes(s[1..]);
        assert forall i :: 0 <= i < |t| ==> t[i] == s[1..][|s| - 1 - |t| + i];
        CollapseDashesSlug(t);
      } else {
        CollapseDashesSlug(s[1..]);
      }
    }
  }

  /** Every slug is made of lower-case word characters and single dashes. */
  lemma SlugIsSlug(title: string)
    ensures IsSlug(Slug(title))
  {
    var lower := ToLower(title);
    var kept := RemoveOthers(lower);
    assert SlugOrSpace(kept) by {
      forall i | 0 <= i < |kept| ensures SlugChar(kept[i]) || IsSpace(kept[i]) {
        assert Kept(kept[i]) && !('A' <= kept[i] <= 'Z');
      }
    }
    DashSpacesSlugChars(kept);
    CollapseDashesSlug(DashSpaces(kept));
  }

  lemma {:induction false} ToLowerSlug(s: string)
    requires AllSlugChars(s)
    ensures ToLower(s) == s
  {
  }

  lemma {:induction false} RemoveOthersSlug(s: string)
    requires AllSlugChars(s)
    ensures RemoveOthers(s) == s
    decreases |s|
  {
    if |s| > 0 { RemoveOthersSlug(s[1..]); }
  }

  lemma {:induction false} DashSpacesSlug(s: string)
    requires AllSlugChars(s)
    ensures DashSpaces(s) == s
    decreases |s|
  {
    if |s| > 0 {
      assert !IsSpace(s[0]);
      DashSpacesSlug(s[1..]);
    }
  }

  lemma {:induction false} CollapseDashesStable(s: string)
    requires IsSlug(s)
    ensures CollapseDashes(s) == s
    decreases |s|
  {
    if |s| > 0 {
      if s[0] == '-' {
        assert DropDashes(s[1..]) == s[1..];
      }
      CollapseDashesStable(s[1..]);
    }
  }

  /** A slug is its own slug, so `formatTitle` of a title already in slug form keeps it. */
  lemma SlugStable(s: string, id: string)
    requires IsSlug(s)
    ensures Slug(s) == s
    ensures s != "" ==> FormatTitle(Some(s), id) == s + "-" + id
  {
    ToLowerSlug(s);
    RemoveOthersSlug(s);
    DashSpacesSlug(s);
    CollapseDashesStable(s);
  }

  /** Making a slug twice gives the same slug. */
  lemma SlugIdempotent(title: string)
    ensures Slug(Slug(title)) == Slug(title)
  {
    SlugIsSlug(title);
    SlugStable(Slug(title), "");
  }

  // ---- the show id and the season of an anime id ----

  /** `id.split("-").pop()`: the show id the episode list is fetched for. */
  function ShowId(id: string): string {
    var parts := Split(id, '-');
    parts[|parts| - 1]
  }

  /** The show id read back from a `formatTitle` id is the numeric id it was built from. */
  lemma FormatTitleShowId(title: Option<string>, id: string)
    requires forall i :: 0 <= i < |id| ==> id[i] != '-'
    ensures ShowId(FormatTitle(title, id)) == id
  {
    if title.None? || title.value == "" {
      SplitNoSep(id, '-');
    } else {
      var slug := Slug(title.value);
      assert slug + "-" + id == slug + ['-'] + id;
      SplitLast(slug, '-', id);
    }
  }

  /** `/season-(\d+)/` matches at `i`. */
  predicate SeasonAt(s: string, i: nat) {
    OccursAt(s, "season-", i) && i + 7 < |s| && IsDigit(s[i + 7])
  }

  /** The capture of the leftmost match at or after `i`, or '1' when there is none. */
  function SeasonFrom(s: string, i: nat): (r: string)
    ensures |r| > 0 && AllDigits(r)
    decreases |s| - i
  {
    if i + 7 >= |s| then "1"
    else if SeasonAt(s, i) then
      assert s[i + 7..][0] == s[i + 7];
      DigitPrefix(s[i + 7..])
    else SeasonFrom(s, i + 1)
  }

  /** `seasonMatch ? seasonMatch[1] : '1'`. */
  function SeasonOf(id: string): string {
    SeasonFrom(id, 0)
  }

  /** The season is the digit run after the leftmost "season-" that a digit follows. */
  lemma {:induction false} SeasonLeftmost(s: string, i: nat, k: nat)
    requires i <= k && SeasonAt(s, k)
    requires forall j :: i <= j < k ==> !SeasonAt(s, j)
    ensures SeasonFrom(s, i) == DigitPrefix(s[k + 7..])
    decreases k - i
  {
    if i < k { SeasonLeftmost(s, i + 1, k); }
  }

  /** Without such a "season-" the season is '1'. */
  lemma {:induction false} SeasonAbsent(s: string, i: nat)
    requires forall j :: i <= j ==> !SeasonAt(s, j)
    ensures SeasonFrom(s, i) == "1"
    decreases |s| - i
  {
    if i + 7 < |s| { SeasonAbsent(s, i + 1); }
  }

  // ---- the episode list ----

  /** The attributes of one `.ss-list a` element; None is an attribute that is not there. */
  datatype EpisodeLink = EpisodeLink(number: Option<string>, href: Option<string>, title: Option<string>,
                                     japaneseTitle: Option<string>, classes: Option<string>)

  /** One pushed episode (`tmdbid` and `description` are always null). */
  datatype Episode = Episode(episodeNo: Option<int>, id: string, epid: string, season: string, episodeid: string,
                             title: Option<string>, japaneseTitle: Option<string>, filler: bool)

  datatype EpisodeList = EpisodeList(totalEpisodes: nat, episodes: seq<Episode>)

  /** `epId.includes('?ep=') ? epId.split('?ep=')[1] : epId`. */
  function EpisodeParam(epId: string): string {
    if Contains(epId, "?ep=") then
      var parts := SplitOn(epId, "?ep=");
      if |parts| >= 2 then parts[1] else epId
    else epId
  }

  /** The episode of one link, or None when the link has no href: `epId` is then null and
      `epId.includes` throws. */
  function EpisodeOf(link: EpisodeLink, season: string): Option<Episode> {
    if link.href.None? || link.href.value == "" then None
    else
      var pieces := Split(link.href.value, '/');
      var epId := pieces[|pieces| - 1];
      var number := if link.number.Some? && link.number.value != "" then link.number.value else "0";
      Some(Episode(
        ParseInt(number),
        epId,
        EpisodeParam(epId),
        season,
        epId + "_s" + season,
        if link.title.Some? && link.title.value != "" then Some(Trim(link.title.value)) else None,
        if link.japaneseTitle.Some? && link.japaneseTitle.value != "" then link.japaneseTitle else None,
        link.classes.Some? && link.classes.value != "" && Contains(link.classes.value, "ssl-item-filler")))
  }

  /** An episode link `.../<slug>?ep=<n>`: the episode id is the last path piece and the
      `epid` is the number after "?ep=". */
  lemma {:induction false} WatchLinkEpisode(link: EpisodeLink, path: string, slug: string, n: nat, season: string)
    requires link.href == Some(path + "/" + slug + "?ep=" + NatToString(n))
    requires forall i :: 0 <= i < |slug| ==> slug[i] != '/' && slug[i] != '?'
    ensures EpisodeOf(link, season).Some?
    ensures var e := EpisodeOf(link, season).value;
      e.id == slug + "?ep=" + NatToString(n) && e.epid == NatToString(n) && e.episodeid == e.id + "_s" + season
  {
    var d := NatToString(n);
    var epId := slug + "?ep=" + d;
    assert forall i :: 0 <= i < |epId| ==> epId[i] != '/' by {
      forall i | 0 <= i < |epId| ensures epId[i] != '/' {
        if i >= |slug| + 4 { assert epId[i] == d[i - |slug| - 4]; }
      }
    }
    assert path + "/" + slug + "?ep=" + d == path + ['/'] + epId;
    SplitLast(path, '/', epId);
    EpidAfterQuery(slug, d);
  }

  lemma {:induction false} EpidAfterQuery(slug: string, d: string)
    requires forall i :: 0 <= i < |slug| ==> slug[i] != '?'
    requires AllDigits(d)
    ensures EpisodeParam(slug + "?ep=" + d) == d
  {
    var t := slug + "?ep=" + d;
    forall j | 0 <= j < |slug| ensures !OccursAt(t, "?ep=", j) {
      assert t[j] == slug[j];
    }
    assert OccursAt(t, "?ep=", |slug|) by { assert t[|slug|..|slug| + 4] == "?ep="; }
    assert Contains(t, "?ep=");
    assert IndexOf(t, "?ep=").value == |slug|;
    var rest := t[|slug| + 4..];
    assert rest == d;
    forall j | 0 <= j <= |rest| ensures !OccursAt(rest, "?ep=", j) {
      if j + 4 <= |rest| { assert rest[j..j + 4][0] == rest[j]; }
    }
    assert IndexOf(rest, "?ep=") == None;
    assert SplitOn(rest, "?ep=") == [rest];
    assert SplitOn(t, "?ep=") == [t[..|slug|]] + SplitOn(rest, "?ep=");
  }

  /** The `each` loop of `fetchEpisodesList`: one episode per link in link order, or
      `{totalEpisodes: 0, episodes: []}` when some link throws. */
  method EpisodesFromLinks(links: seq<EpisodeLink>, season: string) returns (r: EpisodeList)
    ensures (forall k :: 0 <= k < |links| ==> EpisodeOf(links[k], season).Some?) ==>
      r.totalEpisodes == |links| && |r.episodes| == |links| &&
      forall k :: 0 <= k < |links| ==> r.episodes[k] == EpisodeOf(links[k], season).value
    ensures (exists k :: 0 <= k < |links| && EpisodeOf(links[k], season).None?) ==> r == EpisodeList(0, [])
  {
    var episodes: seq<Episode> := [];
    var i := 0;
    while i < |links|
      invariant 0 <= i <= |links| && |episodes| == i
      invariant forall k :: 0 <= k < i ==> EpisodeOf(links[k], season).Some? && episodes[k] == EpisodeOf(links[k], season).value
    {
      var e := EpisodeOf(links[i], season);
      if e.None? {
        return EpisodeList(0, []);
      }
      episodes := episodes + [e.value];
      i := i + 1;
    }
    r := EpisodeList(|links|, episodes);
  }

  /** `fetchEpisodesList(id)`: the fetched links (`fetched`: an error, or None when the
      response has no `html`) turned into episodes of the season the id names. */
  method FetchEpisodesList(id: string, fetched: Result<Option<seq<EpisodeLink>>, string>) returns (r: EpisodeList)
    ensures fetched.Err? || fetched.value.None? ==> r == EpisodeList(0, [])
    ensures fetched.Ok? && fetched.value.Some? ==>
      var links := fetched.value.value;
      (forall k :: 0 <= k < |links| ==> EpisodeOf(links[k], SeasonOf(id)).Some?) ==>
        r.totalEpisodes == |links| && |r.episodes| == |links| &&
        forall k :: 0 <= k < |links| ==> r.episodes[k] == EpisodeOf(links[k], SeasonOf(id)).value
    ensures fetched.Ok? && fetched.value.Some? ==>
      var links := fetched.value.value;
      (exists k :: 0 <= k < |links| && EpisodeOf(links[k], SeasonOf(id)).None?) ==> r == EpisodeList(0, [])
  {
    if fetched.Err? || fetched.value.None? {
      return EpisodeList(0, []);
    }
    r := EpisodesFromLinks(fetched.value.value, SeasonOf(id));
  }
}
