/** Queries over the progress store used by the player pages: the tracker chosen for a
    source, the watched percentage, the started/completed flags and the most recent
    episode of a show. */
module ProgressTracking {

  import opened Wrappers
  import opened ProgressManager
  import Numbers

  /** The sources whose players report progress. */
  datatype Tracker = VidLink | VidsrcXYZ | Vidora | VidFast | Videasy | Fox | PrimeNet

  function TrackerName(t: Tracker): string {
    match t
    case VidLink => "VidLink"
    case VidsrcXYZ => "VidsrcXYZ"
    case Vidora => "Vidora"
    case VidFast => "VidFast"
    case Videasy => "Videasy"
    case Fox => "fox"
    case PrimeNet => "primenet"
  }

  /** `sourceTrackers[source]` in `initializeSourceTracking`: an exact, case-sensitive
      lookup; None means the no-op cleanup is returned. */
  function TrackerFor(source: string): (r: Option<Tracker>)
    ensures r.Some? ==> TrackerName(r.value) == source
    ensures r.None? ==> forall t: Tracker :: TrackerName(t) != source
  {
    if source == "VidLink" then Some(VidLink)
    else if source == "VidsrcXYZ" then Some(VidsrcXYZ)
    else if source == "Vidora" then Some(Vidora)
    else if source == "VidFast" then Some(VidFast)
    else if source == "Videasy" then Some(Videasy)
    else if source == "fox" then Some(Fox)
    else if source == "primenet" then Some(PrimeNet)
    else None
  }

  /** Each tracker is found under its own name. */
  lemma TrackerForName(t: Tracker)
    ensures TrackerFor(TrackerName(t)) == Some(t)
  {}

  /** `getProgressPercentage`: 0 without a record, otherwise the record's percentage. */
  function ProgressPercentage(entries: seq<Entry>, k: Key): (p: int)
    ensures p <= 100
    ensures Find(entries, k).None? ==> p == 0
    ensures Find(entries, k).Some? ==> p == Percent(Find(entries, k).value)
  {
    match Find(entries, k)
    case None => 0
    case Some(e) => Percent(e)
  }

  /** `hasStartedWatching`: a record exists and some of it was watched. */
  function HasStartedWatching(entries: seq<Entry>, k: Key): (b: bool)
    ensures b ==> exists j :: 0 <= j < |entries| && MatchesKey(entries[j], k)
  {
    match Find(entries, k)
    case None => false
    case Some(e) => Positive(e.watchedDuration)
  }

  /** `hasCompletedWatching`: at least 90% watched. */
  function HasCompletedWatching(entries: seq<Entry>, k: Key): (b: bool)
    ensures b ==> Find(entries, k).Some? && Positive(Find(entries, k).value.fullDuration)
  {
    ProgressPercentage(entries, k) >= 90
  }

  /** A completed record has been started: 90% of a positive duration needs a positive
      watched time. */
  lemma CompletedImpliesStarted(entries: seq<Entry>, k: Key)
    requires HasCompletedWatching(entries, k)
    ensures HasStartedWatching(entries, k)
  {
    var e := Find(entries, k).value;
    var f := e.fullDuration.value;
    var w := e.watchedDuration.GetOr(0);
    var p := Percent(e);
    if p < 100 {
      PositiveWatched(w, f, p);
    } else {
      PositiveWatched(w, f, RoundPercent(w, f));
    }
  }

  /** A rounded percentage of at least 90 of a positive duration needs a positive time. */
  lemma PositiveWatched(w: int, f: int, p: int)
    requires f > 0 && p >= 90 && 2 * f * p - f <= 200 * w
    ensures w > 0
  {
    assert f * p >= f * 90;
  }

  /** `getMostRecentEpisode`: the last tv record of the title, in stored order. */
  function MostRecentEpisode(entries: seq<Entry>, mediaId: string): Option<Entry> {
    var all := AllProgress(entries, mediaId, "tv");
    if |all| == 0 then None else Some(all[|all| - 1])
  }

  lemma {:induction false} AllProgressAppend(entries: seq<Entry>, x: Entry, mediaId: string, mediaType: string)
    ensures AllProgress(entries + [x], mediaId, mediaType) ==
      AllProgress(entries, mediaId, mediaType) + (if SameTitle(x, Numbers.ParseInt(mediaId), mediaType) then [x] else [])
  {
    if |entries| > 0 {
      AllProgressAppend(entries[1..], x, mediaId, mediaType);
      assert (entries + [x])[1..] == entries[1..] + [x];
    } else {
      assert entries + [x] == [x];
    }
  }

  /** The most recent episode is the tv record of that id that is stored last; there is
      none exactly when the title has no tv record. */
  lemma {:induction false} MostRecentEpisodeIsLast(entries: seq<Entry>, mediaId: string)
    ensures MostRecentEpisode(entries, mediaId).None? <==>
      forall j :: 0 <= j < |entries| ==> !SameTitle(entries[j], Numbers.ParseInt(mediaId), "tv")
    ensures MostRecentEpisode(entries, mediaId).Some? ==>
      exists k :: 0 <= k < |entries| && entries[k] == MostRecentEpisode(entries, mediaId).value &&
        SameTitle(entries[k], Numbers.ParseInt(mediaId), "tv") &&
        forall j :: k < j < |entries| ==> !SameTitle(entries[j], Numbers.ParseInt(mediaId), "tv")
  {
    MostRecentNone(entries, mediaId);
    if MostRecentEpisode(entries, mediaId).Some? {
      MostRecentLast(entries, mediaId);
    }
  }

  lemma MostRecentNone(entries: seq<Entry>, mediaId: string)
    ensures MostRecentEpisode(entries, mediaId).None? <==>
      forall j :: 0 <= j < |entries| ==> !SameTitle(entries[j], Numbers.ParseInt(mediaId), "tv")
  {
    var all := AllProgress(entries, mediaId, "tv");
    if |all| > 0 {
      assert all[0] in all;
    } else {
      forall j | 0 <= j < |entries| ensures !SameTitle(entries[j], Numbers.ParseInt(mediaId), "tv") {
        assert entries[j] in entries;
      }
    }
  }

  lemma {:induction false} MostRecentLast(entries: seq<Entry>, mediaId: string)
    requires MostRecentEpisode(entries, mediaId).Some?
    ensures exists k ::
      (0 <= k < |entries| && entries[k] == MostRecentEpisode(entries, mediaId).value &&
       SameTitle(entries[k], Numbers.ParseInt(mediaId), "tv") &&
       forall j :: k < j < |entries| ==> !SameTitle(entries[j], Numbers.ParseInt(mediaId), "tv"))
  {
    var id := Numbers.ParseInt(mediaId);
    var init, x := entries[..|entries| - 1], entries[|entries| - 1];
    assert entries == init + [x];
    AllProgressAppend(init, x, mediaId, "tv");
    if SameTitle(x, id, "tv") {
      assert MostRecentEpisode(entries, mediaId) == Some(x);
      assert entries[|entries| - 1] == x;
    } else {
      assert MostRecentEpisode(entries, mediaId) == MostRecentEpisode(init, mediaId);
      MostRecentLast(init, mediaId);
      var k :| 0 <= k < |init| && init[k] == MostRecentEpisode(init, mediaId).value &&
               SameTitle(init[k], id, "tv") &&
               forall j :: k < j < |init| ==> !SameTitle(init[j], id, "tv");
      assert entries[k] == init[k];
      assert forall j :: k < j < |entries| ==> !SameTitle(entries[j], id, "tv");
    }
  }
}
