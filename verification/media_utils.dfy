/** Helpers shared by the pages: the watchlist kept in browser storage, the content
    rating, runtime and remaining-time labels, and the choice of a title logo. */
module MediaUtils {

  import opened Wrappers
  import opened Text
  import opened Numbers

  // ---- watchlist ----

  /** A title as the pages pass it to `addToWatchlist`; optional fields are None when
      falsy.  `id` is `item.id.toString()`. */
  datatype MediaItem = MediaItem(
    id: string, mediaTypeField: Option<string>, firstAirDate: Option<string>,
    title: Option<string>, name: Option<string>,
    posterPath: Option<string>, backdropPath: Option<string>)

  /** A stored watchlist record. */
  datatype WatchItem = WatchItem(
    id: string, mediaType: string, title: Option<string>,
    posterPath: Option<string>, backdropPath: Option<string>)

  /** `item.media_type || (item.first_air_date ? 'tv' : 'movie')`. */
  function MediaTypeOf(item: MediaItem): (t: string)
    ensures item.mediaTypeField.Some? ==> t == item.mediaTypeField.value
    ensures item.mediaTypeField.None? ==> (t == "tv" <==> item.firstAirDate.Some?)
    ensures item.mediaTypeField.None? ==> (t == "movie" <==> item.firstAirDate.None?)
  {
    match item.mediaTypeField
    case Some(t) => t
    case None => if item.firstAirDate.Some? then "tv" else "movie"
  }

  /** The record `addToWatchlist` stores for `item`. */
  function ToWatchItem(item: MediaItem): (w: WatchItem)
    ensures w.id == item.id && w.mediaType == MediaTypeOf(item)
    ensures w.title == (if item.title.Some? then item.title else item.name)
  {
    WatchItem(item.id, MediaTypeOf(item), if item.title.Some? then item.title else item.name,
      item.posterPath, item.backdropPath)
  }

  predicate HasId(items: seq<WatchItem>, id: string) {
    exists k :: 0 <= k < |items| && items[k].id == id
  }

  ghost predicate UniqueIds(items: seq<WatchItem>) {
    forall i, j :: 0 <= i < j < |items| ==> items[i].id != items[j].id
  }

  /** The list after `addToWatchlist(item)`: appended only when its id is new. */
  function Added(items: seq<WatchItem>, item: MediaItem): seq<WatchItem> {
    if HasId(items, item.id) then items else items + [ToWatchItem(item)]
  }

  /** The list after `removeFromWatchlist(id)`: every record with that id is dropped. */
  function Removed(items: seq<WatchItem>, id: string): (r: seq<WatchItem>)
    ensures forall x :: x in r <==> x in items && x.id != id
    ensures !HasId(r, id)
  {
    if |items| == 0 then []
    else
      var rest := Removed(items[1..], id);
      assert forall x :: x in items <==> x == items[0] || x in items[1..];
      if items[0].id == id then rest else [items[0]] + rest
  }

  /** Adding keeps ids unique, and the item's id is present afterwards. */
  lemma AddedProps(items: seq<WatchItem>, item: MediaItem)
    requires UniqueIds(items)
    ensures UniqueIds(Added(items, item))
    ensures HasId(Added(items, item), item.id)
    ensures HasId(items, item.id) ==> Added(items, item) == items
  {
    var r := Added(items, item);
    if !HasId(items, item.id) {
      assert r[|items|].id == item.id;
    }
  }

  /** Removing a record that was just added restores the list. */
  lemma {:induction false} RemoveUndoesAdd(items: seq<WatchItem>, item: MediaItem)
    requires !HasId(items, item.id)
    ensures Removed(Added(items, item), item.id) == items
  {
    RemovedNoMatch(items, item.id);
    RemovedAppend(items, ToWatchItem(item), item.id);
  }

  lemma {:induction false} RemovedNoMatch(items: seq<WatchItem>, id: string)
    requires !HasId(items, id)
    ensures Removed(items, id) == items
  {
    if |items| > 0 {
      assert items[0].id != id;
      assert !HasId(items[1..], id) by {
        forall k | 0 <= k < |items[1..]| ensures items[1..][k].id != id { assert items[1..][k] == items[k + 1]; }
      }
      RemovedNoMatch(items[1..], id);
    }
  }

  lemma {:induction false} RemovedAppend(items: seq<WatchItem>, x: WatchItem, id: string)
    ensures Removed(items + [x], id) == Removed(items, id) + (if x.id == id then [] else [x])
  {
    if |items| > 0 {
      RemovedAppend(items[1..], x, id);
      assert (items + [x])[1..] == items[1..] + [x];
    } else {
      assert items + [x] == [x];
    }
  }

  /** Removing twice is removing once. */
  lemma {:induction false} RemovedIdempotent(items: seq<WatchItem>, id: string)
    ensures Removed(Removed(items, id), id) == Removed(items, id)
  {
    RemovedNoMatch(Removed(items, id), id);
  }

  /** The watchlist in browser storage. */
  class Watchlist {
    var items: seq<WatchItem>

    ghost predicate Valid() reads this { UniqueIds(items) }

    constructor ()
      ensures Valid() && items == []
    {
      items := [];
    }

    /** `isInWatchlist(id)`. */
    function IsIn(id: string): (b: bool)
      reads this
      ensures b <==> exists k :: 0 <= k < |items| && items[k].id == id
    {
      HasId(items, id)
    }

    /** `addToWatchlist(item)`: always reports success. */
    method Add(item: MediaItem) returns (ok: bool)
      requires Valid()
      modifies this
      ensures Valid() && ok
      ensures items == Added(old(items), item)
    {
      AddedProps(items, item);
      if !HasId(items, item.id) {
        items := items + [ToWatchItem(item)];
      }
      ok := true;
    }

    /** `removeFromWatchlist(id)`. */
    method Remove(id: string) returns (ok: bool)
      requires Valid()
      modifies this
      ensures Valid() && ok && !IsIn(id)
      ensures items == Removed(old(items), id)
    {
      RemovedUnique(items, id);
      items := Removed(items, id);
      ok := true;
    }

    /** `toggleWatchlist(item)`: removes a listed title, adds any other, and returns
        whether the title is now listed. */
    method Toggle(item: MediaItem) returns (added: bool)
      requires Valid()
      modifies this
      ensures Valid()
      ensures added == !old(IsIn(item.id)) && IsIn(item.id) == added
      ensures added ==> items == Added(old(items), item)
      ensures !added ==> items == Removed(old(items), item.id)
    {
      if IsIn(item.id) {
        var _ := Remove(item.id);
        added := false;
      } else {
        var _ := Add(item);
        AddedProps(old(items), item);
        added := true;
      }
    }
  }

  /** Removing keeps ids unique. */
  lemma {:induction false} RemovedUnique(items: seq<WatchItem>, id: string)
    requires UniqueIds(items)
    ensures UniqueIds(Removed(items, id))
  {
    if |items| > 0 {
      var t := items[1..];
      assert UniqueIds(t) by {
        forall a, b | 0 <= a < b < |t| ensures t[a].id != t[b].id {
          assert t[a] == items[a + 1] && t[b] == items[b + 1];
        }
      }
      RemovedUnique(t, id);
      var rest := Removed(t, id);
      if items[0].id != id {
        var r := [items[0]] + rest;
        forall a, b | 0 <= a < b < |r| ensures r[a].id != r[b].id {
          assert r[b] == rest[b - 1];
          if a == 0 {
            assert r[b] in t;
            var k :| 0 <= k < |t| && t[k] == r[b];
            assert items[k + 1] == r[b];
          } else {
            assert r[a] == rest[a - 1];
          }
        }
      }
    }
  }

  // ---- labels ----

  /** `formatRuntime(minutes)` for an integer runtime: '' for 0, otherwise hours and
      minutes. */
  function FormatRuntime(minutes: int): (r: string)
    ensures minutes == 0 <==> r == ""
  {
    if minutes == 0 then ""
    else
      var hours := minutes / 60;
      var mins := JsRem(minutes, 60);
      if hours > 0 then IntToString(hours) + "h " + IntToString(mins) + "m" else IntToString(mins) + "m"
  }

  /** A runtime of an hour or more reads "{h}h {m}m" with m below 60 and h*60 + m the
      runtime; a shorter positive runtime reads "{m}m". */
  lemma FormatRuntimeFields(minutes: int)
    requires minutes > 0
    ensures minutes >= 60 ==> exists h: nat, m: nat :: (0 < h && m < 60 && h * 60 + m == minutes &&
                                                      FormatRuntime(minutes) == NatToString(h) + "h " + NatToString(m) + "m")
    ensures minutes < 60 ==> FormatRuntime(minutes) == NatToString(minutes) + "m"
  {
    var h, m := minutes / 60, minutes % 60;
    assert JsRem(minutes, 60) == m;
    assert IntToString(m) == NatToString(m);
    if minutes >= 60 {
      assert h * 60 + m == minutes && h > 0;
      assert IntToString(h) == NatToString(h);
      assert FormatRuntime(minutes) == NatToString(h) + "h " + NatToString(m) + "m";
    } else {
      assert h == 0 && m == minutes;
    }
  }

  /** The value `getRemainingTime` returns: the number 0, or a label. */
  datatype Remaining = ZeroNumber | Label(text: string)

  /** `Math.round(x / 60)` for an integer number of seconds. */
  function RoundMinutes(seconds: int): (m: int)
    ensures 120 * m - 60 <= 2 * seconds < 120 * m + 60
  {
    (2 * seconds + 60) / 120
  }

  /** `getRemainingTime(watched, full)`: 0 when either is 0, otherwise the rounded
      remaining minutes, shown as "{h}h{m}m" from an hour on. */
  function RemainingTime(watched: int, full: int): (r: Remaining)
    ensures r.ZeroNumber? <==> (watched == 0 || full == 0)
  {
    if full == 0 || watched == 0 then ZeroNumber
    else
      var remaining := RoundMinutes(full - watched);
      if remaining >= 60 then Label(IntToString(remaining / 60) + "h" + IntToString(remaining % 60) + "m")
      else Label(IntToString(remaining) + "m")
  }

  /** From an hour on, the label's hours and minutes add back up to the rounded remaining
      time, with the minutes below 60. */
  lemma RemainingTimeFields(watched: int, full: int)
    requires watched != 0 && full != 0 && RoundMinutes(full - watched) >= 60
    ensures exists h: nat, m: nat :: (m < 60 && h * 60 + m == RoundMinutes(full - watched) &&
                                     RemainingTime(watched, full) == Label(NatToString(h) + "h" + NatToString(m) + "m"))
  {
    var total := RoundMinutes(full - watched);
    var h, m := total / 60, total % 60;
    assert h * 60 + m == total;
    assert RemainingTime(watched, full) == Label(NatToString(h) + "h" + NatToString(m) + "m");
  }

  // ---- content rating ----

  datatype CountryRating = CountryRating(country: string, rating: Option<string>)
  datatype Certification = Certification(certification: Option<string>)
  datatype CountryRelease = CountryRelease(country: string, releaseDates: Option<seq<Certification>>)

  /** The rating fields of a title's details; None where a `results` list is absent. */
  datatype RatingInfo = RatingInfo(contentRatings: Option<seq<CountryRating>>, releaseDates: Option<seq<CountryRelease>>)

  /** `results.find(r => r.iso_3166_1 === 'US')` on the content ratings. */
  function FirstUsRating(rs: seq<CountryRating>): (r: Option<CountryRating>)
    ensures r.Some? ==> exists i :: 0 <= i < |rs| && rs[i] == r.value && r.value.country == "US" &&
                                   (forall j :: 0 <= j < i ==> rs[j].country != "US")
    ensures r.None? ==> forall k :: 0 <= k < |rs| ==> rs[k].country != "US"
  {
    if |rs| == 0 then None
    else if rs[0].country == "US" then Some(rs[0])
    else
      var r := FirstUsRating(rs[1..]);
      if r.Some? then
        var i :| 0 <= i < |rs[1..]| && rs[1..][i] == r.value && forall j :: 0 <= j < i ==> rs[1..][j].country != "US";
        assert rs[i + 1] == r.value && forall j :: 0 <= j < i + 1 ==> rs[j].country != "US";
        r
      else r
  }

  /** `results.find(r => r.iso_3166_1 === 'US')` on the release dates. */
  function FirstUsRelease(rs: seq<CountryRelease>): (r: Option<CountryRelease>)
    ensures r.Some? ==> exists i :: 0 <= i < |rs| && rs[i] == r.value && r.value.country == "US" &&
                                   (forall j :: 0 <= j < i ==> rs[j].country != "US")
    ensures r.None? ==> forall k :: 0 <= k < |rs| ==> rs[k].country != "US"
  {
    if |rs| == 0 then None
    else if rs[0].country == "US" then Some(rs[0])
    else
      var r := FirstUsRelease(rs[1..]);
      if r.Some? then
        var i :| 0 <= i < |rs[1..]| && rs[1..][i] == r.value && forall j :: 0 <= j < i ==> rs[1..][j].country != "US";
        assert rs[i + 1] == r.value && forall j :: 0 <= j < i + 1 ==> rs[j].country != "US";
        r
      else r
  }

  /** `r.certification?.trim()` is truthy: present and not blank after trimming. */
  predicate Certified(c: Certification) { c.certification.Some? && Trim(c.certification.value) != "" }

  /** `release_dates.find(r => r.certification?.trim())?.certification`: the first
      certification that is not blank after trimming. */
  function FirstCertified(cs: seq<Certification>): (r: Option<string>)
    ensures r.Some? ==> exists i :: 0 <= i < |cs| && cs[i].certification == r && Certified(cs[i]) &&
                                   (forall j :: 0 <= j < i ==> !Certified(cs[j]))
    ensures r.None? ==> forall k :: 0 <= k < |cs| ==> !Certified(cs[k])
  {
    if |cs| == 0 then None
    else if Certified(cs[0]) then cs[0].certification
    else
      var r := FirstCertified(cs[1..]);
      if r.Some? then
        var i :| 0 <= i < |cs[1..]| && cs[1..][i].certification == r && Certified(cs[1..][i]) &&
          forall j :: 0 <= j < i ==> !Certified(cs[1..][j]);
        assert cs[i + 1].certification == r && forall j :: 0 <= j < i + 1 ==> !Certified(cs[j]);
        r
      else r
  }

  /** `getContentRating(item)`: from the content ratings when the title has them, else from
      the US release certifications, else 'NR'.  The result is never empty. */
  function ContentRating(info: RatingInfo): (r: string)
    ensures r != ""
    ensures info.contentRatings.Some? && FirstUsRating(info.contentRatings.value).None? ==> r == "NR"
    ensures info.contentRatings.Some? && FirstUsRating(info.contentRatings.value).Some? ==>
      var rating := FirstUsRating(info.contentRatings.value).value.rating;
      r == if rating.Some? && rating.value != "" then rating.value else "NR"
    ensures info.contentRatings.None? && info.releaseDates.None? ==> r == "NR"
    ensures info.contentRatings.None? && info.releaseDates.Some? ==>
      var us := FirstUsRelease(info.releaseDates.value);
      if us.Some? && us.value.releaseDates.Some? && FirstCertified(us.value.releaseDates.value).Some?
      then r == FirstCertified(us.value.releaseDates.value).value
      else r == "NR"
  {
    match info.contentRatings
    case Some(rs) =>
      (match FirstUsRating(rs)
       case Some(us) => if us.rating.Some? && us.rating.value != "" then us.rating.value else "NR"
       case None => "NR")
    case None =>
      match info.releaseDates
      case None => "NR"
      case Some(rels) =>
        match FirstUsRelease(rels)
        case Some(us) =>
          if us.releaseDates.Some? then
            (match FirstCertified(us.releaseDates.value)
             case Some(c) => (if c != "" then c else "NR")
             case None => "NR")
          else "NR"
        case None => "NR"
  }

  /** A title with content ratings is rated from them alone: its release dates are never
      consulted. */
  lemma ContentRatingIgnoresReleases(info: RatingInfo, other: Option<seq<CountryRelease>>)
    requires info.contentRatings.Some?
    ensures ContentRating(info.(releaseDates := other)) == ContentRating(info)
  {}

  // ---- logo ----

  datatype Logo = Logo(language: Option<string>, filePath: string)

  predicate IsEnglishOrNeutral(l: Logo) { l.language == Some("en") || l.language.None? }

  function FirstEnglish(logos: seq<Logo>): (r: Option<nat>)
    ensures r.Some? ==> r.value < |logos| && IsEnglishOrNeutral(logos[r.value])
    ensures r.Some? ==> forall k :: 0 <= k < r.value ==> !IsEnglishOrNeutral(logos[k])
    ensures r.None? ==> forall k :: 0 <= k < |logos| ==> !IsEnglishOrNeutral(logos[k])
  {
    if |logos| == 0 then None
    else if IsEnglishOrNeutral(logos[0]) then Some(0)
    else match FirstEnglish(logos[1..]) case None => None case Some(i) => Some(i + 1)
  }

  /** `getLogoPath(details)`: the first English (or language-neutral) logo, else the first
      logo, else null. */
  function LogoPath(logos: Option<seq<Logo>>): (r: Option<string>)
    ensures r.Some? <==> logos.Some? && |logos.value| > 0
    ensures r.Some? && (exists k :: 0 <= k < |logos.value| && IsEnglishOrNeutral(logos.value[k])) ==>
      exists k :: 0 <= k < |logos.value| && IsEnglishOrNeutral(logos.value[k]) && r.value == logos.value[k].filePath &&
        (forall j :: 0 <= j < k ==> !IsEnglishOrNeutral(logos.value[j]))
    ensures r.Some? && (forall k :: 0 <= k < |logos.value| ==> !IsEnglishOrNeutral(logos.value[k])) ==>
      r.value == logos.value[0].filePath
  {
    match logos
    case None => None
    case Some(ls) =>
      match FirstEnglish(ls)
      case Some(i) => Some(ls[i].filePath)
      case None => if |ls| > 0 then Some(ls[0].filePath) else None
  }
}
