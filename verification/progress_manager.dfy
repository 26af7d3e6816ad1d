/** The watch-progress store (`continue` in browser storage): a list of progress records,
    upserted by (id, mediaType, season, episode), capped at the 50 most recent writes,
    and read back by lookup, by title and as the "continue watching" row. */
module ProgressManager {

  import opened Wrappers
  import opened Numbers
  import Sorting

  /** A number after `parseInt`: None stands for `NaN`, which is stored as `null`.  Both
      compare unequal to everything, fail every `>` test, and (as `null`) count as 0 in
      arithmetic once read back. */
  type Num = Option<int>

  /** `a === b` on parsed numbers: never true when either side is `NaN`/`null`. */
  predicate NumEq(a: Num, b: Num) { a.Some? && b.Some? && a.value == b.value }

  /** `x > 0`. */
  predicate Positive(x: Num) { x.Some? && x.value > 0 }

  /** A stored progress record (the sanitised fields; other fields are carried unchanged
      by the source and are not modelled). */
  datatype Entry = Entry(
    id: Num, mediaType: string, season: Num, episode: Num, sourceIndex: Num,
    fullDuration: Num, watchedDuration: Num, timestamp: Num)

  /** The caller's progress data.  `id` is `String(progressData.id)`; every other numeric
      field is None when it is missing, `null` or the number 0, and otherwise its text (the
      empty string, also falsy, is kept as `Some("")`). */
  datatype ProgressInput = ProgressInput(
    id: string, mediaType: string, season: Option<string>, episode: Option<string>,
    sourceIndex: Option<string>, fullDuration: Option<string>,
    watchedDuration: Option<string>, timestamp: Option<string>)

  /** `parseInt(x || 0)`: a missing or empty text is replaced by 0 before parsing. */
  function ParseOrZero(x: Option<string>): (r: Num)
    ensures x.None? || x == Some("") ==> r == Some(0)
    ensures x.Some? && x.value != "" ==> r == ParseInt(x.value)
  {
    match x case None => Some(0) case Some(t) => if t == "" then Some(0) else ParseInt(t)
  }

  /** `parseInt(x || Date.now())`: a missing or empty timestamp is replaced by `now`. */
  function ParseOrNow(x: Option<string>, now: int): (r: Num)
    ensures x.None? || x == Some("") ==> r == Some(now)
    ensures x.Some? && x.value != "" ==> r == ParseInt(x.value)
  {
    match x case None => Some(now) case Some(t) => if t == "" then Some(now) else ParseInt(t)
  }

  /** The sanitised record `saveProgress` stores; `now` is `Date.now()`. */
  function Sanitize(input: ProgressInput, now: int): (e: Entry)
    ensures e.id == ParseInt(input.id) && e.mediaType == input.mediaType
    ensures input.season.None? || input.season == Some("") ==> e.season == Some(0)
    ensures input.season.Some? && input.season.value != "" ==> e.season == ParseInt(input.season.value)
    ensures input.episode.None? || input.episode == Some("") ==> e.episode == Some(0)
    ensures input.episode.Some? && input.episode.value != "" ==> e.episode == ParseInt(input.episode.value)
    ensures input.sourceIndex.None? || input.sourceIndex == Some("") ==> e.sourceIndex == Some(0)
    ensures input.sourceIndex.Some? && input.sourceIndex.value != "" ==>
      e.sourceIndex == ParseInt(input.sourceIndex.value)
    ensures input.fullDuration.None? || input.fullDuration == Some("") ==> e.fullDuration == Some(0)
    ensures input.fullDuration.Some? && input.fullDuration.value != "" ==>
      e.fullDuration == ParseInt(input.fullDuration.value)
    ensures input.watchedDuration.None? || input.watchedDuration == Some("") ==> e.watchedDuration == Some(0)
    ensures input.watchedDuration.Some? && input.watchedDuration.value != "" ==>
      e.watchedDuration == ParseInt(input.watchedDuration.value)
    ensures input.timestamp.None? || input.timestamp == Some("") ==> e.timestamp == Some(now)
    ensures input.timestamp.Some? && input.timestamp.value != "" ==>
      e.timestamp == ParseInt(input.timestamp.value)
  {
    Entry(ParseInt(input.id), input.mediaType, ParseOrZero(input.season), ParseOrZero(input.episode),
      ParseOrZero(input.sourceIndex), ParseOrZero(input.fullDuration), ParseOrZero(input.watchedDuration),
      ParseOrNow(input.timestamp, now))
  }

  /** What identifies a record: a movie by (id, mediaType), anything else also by season
      and episode. */
  datatype Key = Key(id: Num, mediaType: string, season: Num, episode: Num)

  function KeyOf(e: Entry): Key { Key(e.id, e.mediaType, e.season, e.episode) }

  predicate MatchesKey(item: Entry, k: Key) {
    NumEq(item.id, k.id) && item.mediaType == k.mediaType &&
    (k.mediaType == "movie" || (NumEq(item.season, k.season) && NumEq(item.episode, k.episode)))
  }

  /** `continueData.findIndex(...)` for key `k`. */
  function FindIndex(entries: seq<Entry>, k: Key): (r: Option<nat>)
    ensures r.Some? ==> r.value < |entries| && MatchesKey(entries[r.value], k)
    ensures r.Some? ==> forall j :: 0 <= j < r.value ==> !MatchesKey(entries[j], k)
    ensures r.None? ==> forall j :: 0 <= j < |entries| ==> !MatchesKey(entries[j], k)
  {
    if |entries| == 0 then None
    else if MatchesKey(entries[0], k) then Some(0)
    else match FindIndex(entries[1..], k)
      case None => None
      case Some(i) => Some(i + 1)
  }

  const MaxEntries := 50

  /** `list.slice(-50)` when the list is longer than 50. */
  function Cap(s: seq<Entry>): (r: seq<Entry>)
    ensures |r| <= MaxEntries && |r| <= |s| && r == s[|s| - |r|..]
    ensures |s| <= MaxEntries ==> r == s
  {
    if |s| > MaxEntries then s[|s| - MaxEntries..] else s
  }

  /** The list `saveProgress` writes back for a sanitised record `e`. */
  function Saved(entries: seq<Entry>, e: Entry): seq<Entry> {
    match FindIndex(entries, KeyOf(e))
    case Some(k) => Cap(entries[k := e])
    case None => Cap(entries + [e])
  }

  /** No two records share a key. */
  ghost predicate UniqueKeys(entries: seq<Entry>) {
    forall i, j :: 0 <= i < j < |entries| ==> !MatchesKey(entries[j], KeyOf(entries[i]))
  }

  /** Matching is symmetric and transitive, so a key identifies at most one record. */
  lemma MatchesSymmetric(a: Entry, b: Entry)
    ensures MatchesKey(a, KeyOf(b)) <==> MatchesKey(b, KeyOf(a))
  {}

  lemma MatchesTransitive(a: Entry, b: Entry, k: Key)
    requires MatchesKey(a, KeyOf(b)) && MatchesKey(b, k)
    ensures MatchesKey(a, k)
  {}

  lemma MatchesSameKey(a: Entry, b: Entry, k: Key)
    ensures MatchesKey(a, k) && MatchesKey(b, k) ==> MatchesKey(a, KeyOf(b))
  {}

  /** A record already present under the same key is overwritten where it stands; the
      other records keep their values and order. */
  lemma SavedOverwrites(entries: seq<Entry>, e: Entry, k: nat)
    requires |entries| <= MaxEntries
    requires FindIndex(entries, KeyOf(e)) == Some(k)
    ensures Saved(entries, e) == entries[k := e]
    ensures |Saved(entries, e)| == |entries|
  {}

  /** A new key is appended; when that makes 51 records the oldest one is dropped. */
  lemma SavedAppends(entries: seq<Entry>, e: Entry)
    requires |entries| <= MaxEntries
    requires forall j :: 0 <= j < |entries| ==> !MatchesKey(entries[j], KeyOf(e))
    ensures |entries| < MaxEntries ==> Saved(entries, e) == entries + [e]
    ensures |entries| == MaxEntries ==> Saved(entries, e) == entries[1..] + [e]
  {
    assert FindIndex(entries, KeyOf(e)).None?;
  }

  /** After a save the store holds the sanitised record, at most 50 records, and still no
      two records with the same key. */
  lemma SavedProps(entries: seq<Entry>, e: Entry)
    requires |entries| <= MaxEntries && UniqueKeys(entries)
    ensures e in Saved(entries, e)
    ensures |Saved(entries, e)| <= MaxEntries
    ensures UniqueKeys(Saved(entries, e))
  {
    var r := Saved(entries, e);
    match FindIndex(entries, KeyOf(e))
    case Some(k) =>
      ReplaceUnique(entries, e, k);
      assert r == entries[k := e];
      assert r[k] == e;
    case None =>
      var u := entries + [e];
      AppendUnique(entries, e);
      assert u[|u| - 1] == e;
      if |u| > MaxEntries {
        DropUnique(u);
        assert r == u[1..] && r[|r| - 1] == e;
      }
  }

  /** Overwriting the record of a key with a record of the same key keeps the keys unique. */
  lemma ReplaceUnique(entries: seq<Entry>, e: Entry, k: nat)
    requires UniqueKeys(entries) && k < |entries| && MatchesKey(entries[k], KeyOf(e))
    ensures UniqueKeys(entries[k := e])
  {
    var u := entries[k := e];
    forall i, j | 0 <= i < j < |u| ensures !MatchesKey(u[j], KeyOf(u[i])) {
      if i == k {
        MatchesSameKey(entries[j], entries[k], KeyOf(e));
      } else if j == k {
        MatchesSymmetric(e, entries[i]);
      }
    }
  }

  /** Appending a record of a new key keeps the keys unique. */
  lemma AppendUnique(entries: seq<Entry>, e: Entry)
    requires UniqueKeys(entries) && forall j :: 0 <= j < |entries| ==> !MatchesKey(entries[j], KeyOf(e))
    ensures UniqueKeys(entries + [e])
  {
    var u := entries + [e];
    forall i, j | 0 <= i < j < |u| ensures !MatchesKey(u[j], KeyOf(u[i])) {
      if j == |entries| {
        MatchesSymmetric(e, entries[i]);
      }
    }
  }

  /** Dropping the oldest record keeps the keys unique. */
  lemma DropUnique(u: seq<Entry>)
    requires UniqueKeys(u) && |u| > 0
    ensures UniqueKeys(u[1..])
  {
    forall i, j | 0 <= i < j < |u| - 1 ensures !MatchesKey(u[1..][j], KeyOf(u[1..][i])) {
      assert u[1..][j] == u[j + 1] && u[1..][i] == u[i + 1];
    }
  }

  /** Under a valid store, a movie id has at most one record. */
  lemma MovieAtMostOnce(entries: seq<Entry>, i: nat, j: nat)
    requires UniqueKeys(entries)
    requires i < j < |entries|
    requires entries[i].mediaType == "movie" && entries[j].mediaType == "movie"
    ensures !NumEq(entries[i].id, entries[j].id)
  {}

  /** The progress store. */
  class Store {
    var entries: seq<Entry>

    ghost predicate Valid() reads this {
      |entries| <= MaxEntries && UniqueKeys(entries)
    }

    constructor ()
      ensures Valid() && entries == []
    {
      entries := [];
    }

    /** `saveProgress(progressData)` at time `now`. */
    method SaveProgress(input: ProgressInput, now: int)
      requires Valid()
      modifies this
      ensures Valid()
      ensures entries == Saved(old(entries), Sanitize(input, now))
      ensures Sanitize(input, now) in entries
    {
      var e := Sanitize(input, now);
      ghost var before := entries;
      SavedProps(before, e);
      var existing := FindIndex(entries, KeyOf(e));
      var data: seq<Entry>;
      if existing.Some? {
        data := entries[existing.value := e];
      } else {
        data := entries + [e];
      }
      if |data| > MaxEntries {
        data := data[|data| - MaxEntries..];
      }
      assert data == Saved(before, e);
      entries := data;
    }

    /** `getProgress(mediaId, mediaType, season, episode)`. */
    function GetProgress(mediaId: string, mediaType: string, season: string, episode: string): (r: Option<Entry>)
      reads this
      ensures r.Some? ==> r.value in entries
    {
      Find(entries, LookupKey(mediaId, mediaType, season, episode))
    }
  }

  /** The key `getProgress` looks up: the id, season and episode are parsed. */
  function LookupKey(mediaId: string, mediaType: string, season: string, episode: string): Key {
    Key(ParseInt(mediaId), mediaType, ParseInt(season), ParseInt(episode))
  }

  /** `continueData.find(...) || null`: the first record matching the key. */
  function Find(entries: seq<Entry>, k: Key): (r: Option<Entry>)
    ensures r.Some? <==> exists j :: 0 <= j < |entries| && MatchesKey(entries[j], k)
    ensures r.Some? ==> exists j :: 0 <= j < |entries| && entries[j] == r.value && MatchesKey(r.value, k) &&
                                   (forall i :: 0 <= i < j ==> !MatchesKey(entries[i], k))
  {
    match FindIndex(entries, k)
    case None => None
    case Some(i) => Some(entries[i])
  }

  /** A record just saved is what a lookup by its own key finds. */
  lemma FindAfterSave(entries: seq<Entry>, e: Entry)
    requires |entries| <= MaxEntries && UniqueKeys(entries)
    requires e.id.Some? && e.season.Some? && e.episode.Some?
    ensures Find(Saved(entries, e), KeyOf(e)) == Some(e)
  {
    SavedProps(entries, e);
    var r := Saved(entries, e);
    var j :| 0 <= j < |r| && r[j] == e;
    assert MatchesKey(e, KeyOf(e));
    forall i | 0 <= i < |r| && i != j ensures !MatchesKey(r[i], KeyOf(e)) {
      if i < j { MatchesSymmetric(r[j], r[i]); }
    }
  }

  predicate SameTitle(item: Entry, id: Num, mediaType: string) {
    NumEq(item.id, id) && item.mediaType == mediaType
  }

  /** `getAllProgress(mediaId, mediaType)`: the records of one title, in stored order. */
  function AllProgress(entries: seq<Entry>, mediaId: string, mediaType: string): (r: seq<Entry>)
    ensures |r| <= |entries|
    ensures forall x :: x in r <==> x in entries && SameTitle(x, ParseInt(mediaId), mediaType)
  {
    if |entries| == 0 then []
    else
      var rest := AllProgress(entries[1..], mediaId, mediaType);
      assert forall x :: x in entries <==> x == entries[0] || x in entries[1..];
      if SameTitle(entries[0], ParseInt(mediaId), mediaType) then [entries[0]] + rest else rest
  }

  /** `Math.round(w / f * 100)` for f > 0, in exact arithmetic: the nearest integer, ties
      rounded up. */
  function RoundPercent(w: int, f: int): (p: int)
    requires f > 0
    ensures 2 * f * p - f <= 200 * w < 2 * f * p + f
  {
    (200 * w + f) / (2 * f)
  }

  /** The progress percentage of a stored record: 0 unless fullDuration > 0, otherwise
      `Math.min(100, Math.round(watched / full * 100))`, a `null` watched time counting
      as 0. */
  function Percent(e: Entry): (p: int)
    ensures p <= 100
    ensures !Positive(e.fullDuration) ==> p == 0
    ensures e.watchedDuration.GetOr(0) >= 0 ==> p >= 0
    ensures Positive(e.fullDuration) && p < 100 ==>
      2 * e.fullDuration.value * p - e.fullDuration.value <= 200 * e.watchedDuration.GetOr(0)
        < 2 * e.fullDuration.value * p + e.fullDuration.value
    ensures Positive(e.fullDuration) && p == 100 ==>
      200 * e.watchedDuration.GetOr(0) >= 199 * e.fullDuration.value
  {
    if Positive(e.fullDuration) then
      var f := e.fullDuration.value;
      var r := RoundPercent(e.watchedDuration.GetOr(0), f);
      if r < 100 then r
      else
        assert 2 * f * r >= 2 * f * 100 by { MulMonotone(2 * f, 100, r); }
        100
    else 0
  }

  lemma MulMonotone(a: int, b: int, c: int)
    requires a >= 0 && b <= c
    ensures a * b <= a * c
  {
    assert a * c - a * b == a * (c - b);
  }

  predicate InProgress(e: Entry) { 5 < Percent(e) < 90 }

  function Timestamp(e: Entry): int { e.timestamp.GetOr(0) }

  function FilterInProgress(entries: seq<Entry>): (r: seq<Entry>)
    ensures forall x :: x in r <==> x in entries && InProgress(x)
  {
    if |entries| == 0 then []
    else
      var rest := FilterInProgress(entries[1..]);
      assert forall x :: x in entries <==> x == entries[0] || x in entries[1..];
      if InProgress(entries[0]) then [entries[0]] + rest else rest
  }

  /** `getAllContinueWatching()`: the partly watched records, most recent first, at most 20. */
  function ContinueWatching(entries: seq<Entry>): seq<Entry> {
    var sorted := Sorting.SortDesc(FilterInProgress(entries), Timestamp);
    if |sorted| > 20 then sorted[..20] else sorted
  }

  /** The row holds at most 20 stored records, each between 5% and 90% watched, in
      decreasing timestamp order, each shown no more often than it is stored, and omits
      only records that are not in progress or are no more recent than every one shown. */
  lemma ContinueWatchingProps(entries: seq<Entry>)
    ensures |ContinueWatching(entries)| <= 20
    ensures forall x :: x in ContinueWatching(entries) ==> x in entries && InProgress(x)
    ensures forall i, j :: 0 <= i < j < |ContinueWatching(entries)| ==>
      Timestamp(ContinueWatching(entries)[i]) >= Timestamp(ContinueWatching(entries)[j])
    ensures |ContinueWatching(entries)| < 20 ==>
      forall x :: x in entries && InProgress(x) ==> x in ContinueWatching(entries)
    ensures multiset(ContinueWatching(entries)) <= multiset(FilterInProgress(entries))
    ensures forall x, y ::
      x in entries && InProgress(x) && x !in ContinueWatching(entries) && y in ContinueWatching(entries)
      ==> Timestamp(x) <= Timestamp(y)
  {
    var f := FilterInProgress(entries);
    var sorted := Sorting.SortDesc(f, Timestamp);
    Sorting.SortDescProps(f, Timestamp);
    Sorting.SortDescLength(f, Timestamp);
    var r := ContinueWatching(entries);
    forall x | x in r ensures x in entries && InProgress(x) {
      assert x in sorted;
      assert x in multiset(f);
    }
    forall i, j | 0 <= i < j < |r| ensures Timestamp(r[i]) >= Timestamp(r[j]) {
      assert r[i] == sorted[i] && r[j] == sorted[j];
    }
    if |r| < 20 {
      assert r == sorted;
      forall x | x in entries && InProgress(x) ensures x in r {
        assert x in multiset(f);
      }
    }
    ContinueWatchingTop(entries);
  }

  /** The records the row leaves out are older than (or as recent as) every one shown. */
  lemma ContinueWatchingTop(entries: seq<Entry>)
    ensures multiset(ContinueWatching(entries)) <= multiset(FilterInProgress(entries))
    ensures forall x, y ::
      x in FilterInProgress(entries) && x !in ContinueWatching(entries) && y in ContinueWatching(entries)
      ==> Timestamp(x) <= Timestamp(y)
  {
    var f := FilterInProgress(entries);
    var sorted := Sorting.SortDesc(f, Timestamp);
    Sorting.SortDescProps(f, Timestamp);
    var r := ContinueWatching(entries);
    assert r == sorted[..|r|];
    Sorting.PrefixTop(sorted, Timestamp, |r|);
    forall x | x in f ensures x in sorted {
      assert x in multiset(f);
    }
  }
}
