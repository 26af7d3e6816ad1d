# A verified model of the streaming front-end and its proxies

This project is a Dafny model of the logic of a React streaming site and of the two proxies it uses: the Node m3u8 CORS proxy and the Netlify proxy function. The model covers the parts that compute something, and states and proves what they promise. Network requests, browser storage, timers and the DOM are not modelled: their results are passed in as parameters.

The model has one module per source file, plus shared modules for the JavaScript runtime behaviour that the code relies on.

- **Watch progress and watchlist** (`ProgressManager`, `ProgressTracking`, `MediaUtils`):
  - the progress store in browser storage is a class whose list field `saveProgress` updates in place;
  - the store keeps one record per (id, media type, season, episode) and at most 50 records;
  - the continue-watching view filters by percentage, sorts by time and keeps 20;
  - the watchlist keeps ids unique; the module also covers the runtime, remaining-time and rating rules.
- **Subtitles and time** (`SrtSubtitles`, `CueTiming`, `PrimeNet`, `ZenimeEmbed`, `SettingsMenu`, `PlayerHelpers`, `PreviewVideo`):
  - the SubRip reader shared by three embed pages;
  - the SRT to WebVTT conversion;
  - the line-indexed WebVTT scanner of the Zenime page;
  - the fallback subtitle reader of the settings menu;
  - the clock texts. All times are whole milliseconds.
- **HLS master playlists** (`HlsAttributes`, `HlsQualities`, `ZenimePlaylist`, `PlayerQualities`):
  - the three readers of `#EXT-X-STREAM-INF` (section 4.3.4.2 of RFC 8216);
  - their different rules for finding the URI line;
  - the quality names, the "Auto" entry and the order.
- **Proxies** (`ProxyServer`, `NetlifyProxy`, `Headers`, `Json`, `Url`):
  - the per-origin rate limiter;
  - the CORS headers;
  - the redirect counter;
  - the line-by-line playlist rewrite;
  - the hop-by-hop header filter and the request guards of the Netlify function.
- **Navigation and sources**:
  - the pagination window (`AnimeSearch`);
  - the spotlight carousel and category tabs (`AnimeHome`);
  - the episode stepping across seasons (`Watch`);
  - the speed control (`PlayerSpeed`);
  - the embed source tables and URL templates (`AnimeSources`, `AnimeSourceUrls`, `Templates`, `DetailsSources`);
  - the embed pages' stream choice (`PrimeBox`, `Xprime`, `EmbedRoute`);
  - the anime API client's TTL caches and scraping rules (`AnimeCache`, `AnimeData`, `EpisodeThumbnails`);
  - the browse page's rows (`BrowseHome`).
- **Runtime** (`Text`, `Numbers`, `Sorting`, `Wrappers`):
  - `split`, `trim`, `indexOf`, string-pattern `replace`;
  - `parseInt` and `parseFloat` on decimal text;
  - `%` with the sign of the dividend;
  - `Array.prototype.sort`, which is stable.

Where the source keeps state in an object or in browser storage, the model uses a class whose methods change its fields. These are the progress store, the watchlist, the rate limiter, the TTL caches, the subtitle menu, the PrimeNet track slot, the PrimeBox player, the watch overlay, the search page and a category row. Loops in the source are loops in the model, proved against a specification function.

## Model

| member | source | states |
|---|---|---|
| ProgressManager.ParseOrZero | src/components/progress/progressManager.jsx:6-10 | `parseInt` with 0 for a falsy field: a missing or empty field gives 0, any other text gives its `parseInt` value |
| ProgressManager.ParseOrNow | src/components/progress/progressManager.jsx:11 | `parseInt` with the current time for a falsy timestamp: a missing or empty timestamp gives `now`, any other text gives its `parseInt` value |
| ProgressManager.Sanitize | src/components/progress/progressManager.jsx:3-12 | the id is parsed and the mediaType kept; each of season, episode, sourceIndex, fullDuration and watchedDuration is the `parseInt` value of its text, or 0 when missing or empty; the timestamp is the `parseInt` value of its text, or `now` when missing or empty |
| ProgressManager.FindIndex | src/components/progress/progressManager.jsx:20-25 | the index found is the first record matching the key; None means no record matches |
| ProgressManager.Cap | src/components/progress/progressManager.jsx:33-35 | the capped list is a suffix of at most 50 records, and a list of 50 or fewer is kept whole |
| ProgressManager.MatchesSymmetric | src/components/progress/progressManager.jsx:20-25 | the match test is symmetric between two records |
| ProgressManager.MatchesTransitive | src/components/progress/progressManager.jsx:20-25 | a record matching a record that matches a key also matches that key |
| ProgressManager.MatchesSameKey | src/components/progress/progressManager.jsx:20-25 | two records that match one key match each other |
| ProgressManager.SavedOverwrites | src/components/progress/progressManager.jsx:27-28 | a record already present under the key is overwritten at its own index; the length and every other record are unchanged |
| ProgressManager.SavedAppends | src/components/progress/progressManager.jsx:29-35 | a new key is appended, and when the list already had 50 records the oldest is dropped |
| ProgressManager.SavedProps | src/components/progress/progressManager.jsx:20-37 | after a save the list holds the sanitised record, has at most 50 records, and no two records share a key |
| ProgressManager.ReplaceUnique | src/components/progress/progressManager.jsx:27-28 | overwriting a record with one of the same key keeps the keys unique |
| ProgressManager.AppendUnique | src/components/progress/progressManager.jsx:29-31 | appending a record of a new key keeps the keys unique |
| ProgressManager.DropUnique | src/components/progress/progressManager.jsx:33-35 | dropping the oldest record keeps the keys unique |
| ProgressManager.MovieAtMostOnce | src/components/progress/progressManager.jsx:20-25 | in a store with unique keys, two movie records never have the same id |
| ProgressManager.Store.constructor | src/components/progress/progressManager.jsx:14-16 | the store starts as the empty list `[]` |
| ProgressManager.Store.SaveProgress | src/components/progress/progressManager.jsx:1-37 | the new list is the old list with the sanitised record upserted and capped at 50; the list stays at most 50 records with unique keys and contains the record |
| ProgressManager.Store.GetProgress | src/components/progress/progressManager.jsx:51-64 | the result, when present, is a record of the store |
| ProgressManager.Find | src/components/progress/progressManager.jsx:59-64 | a record is found exactly when some record matches the key, and it is the first such record; otherwise null |
| ProgressManager.FindAfterSave | src/components/progress/progressManager.jsx:20-37 | after saving a record, looking up its own key returns that record |
| ProgressManager.AllProgress | src/components/progress/progressManager.jsx:79-82 | the result holds exactly the records with the parsed id and the mediaType, and no more records than the store |
| ProgressManager.RoundPercent | src/components/progress/progressManager.jsx:101 | `Math.round(w / f * 100)` is the integer nearest to 100w/f, ties rounded up |
| ProgressManager.Percent | src/components/progress/progressManager.jsx:100-102 | the percentage is 0 without a positive fullDuration, never above 100, not negative for a non-negative watched time; below 100 it is the ratio rounded to the nearest integer, and 100 only when at least 99.5% is watched |
| ProgressManager.FilterInProgress | src/components/progress/progressManager.jsx:99-104 | the filtered list holds exactly the records whose percentage is strictly between 5 and 90 |
| ProgressManager.ContinueWatchingProps | src/components/progress/progressManager.jsx:98-106 | the row holds at most 20 stored records, each strictly between 5% and 90% watched, in decreasing timestamp order, each no more often than the in-progress records hold it; every in-progress record left out is no more recent than every record shown; when it holds fewer than 20 it holds every in-progress record |
| ProgressManager.ContinueWatchingTop | src/components/progress/progressManager.jsx:105-106 | the row is a sub-multiset of the in-progress records, and each in-progress record left out has a timestamp no greater than any record shown |
| ProgressTracking.TrackerFor | src/components/progress/index.jsx:12-31 | a tracker is chosen only for a source equal to its exact name; any other source gets none (the no-op cleanup) |
| ProgressTracking.TrackerForName | src/components/progress/index.jsx:13-23 | each of the seven trackers is found under its own name |
| ProgressTracking.ProgressPercentage | src/components/progress/index.jsx:53-61 | 0 without a matching record, otherwise that record's percentage, never above 100 |
| ProgressTracking.HasStartedWatching | src/components/progress/index.jsx:63-66 | a started title has a matching record |
| ProgressTracking.HasCompletedWatching | src/components/progress/index.jsx:68-71 | a completed title has a matching record with a positive fullDuration |
| ProgressTracking.CompletedImpliesStarted | src/components/progress/index.jsx:63-71 | a title watched to 90% or more has also been started |
| ProgressTracking.AllProgressAppend | src/components/progress/progressManager.jsx:79-82 | the records of a title in a list with one more record are the old ones, plus the new one when it belongs to the title |
| ProgressTracking.MostRecentEpisodeIsLast | src/components/progress/index.jsx:73-78 | there is no most recent episode exactly when the id has no tv record; otherwise it is the tv record of that id stored last |
| ProgressTracking.MostRecentNone | src/components/progress/index.jsx:73-76 | the result is null exactly when no stored record is a tv record of the id |
| ProgressTracking.MostRecentLast | src/components/progress/index.jsx:73-77 | a result found is a tv record of the id with no later tv record of that id |
| MediaUtils.MediaTypeOf | src/utils.jsx:102 | the given media_type wins; without one the type is 'tv' exactly when a first_air_date is present and 'movie' exactly when it is not |
| MediaUtils.ToWatchItem | src/utils.jsx:103-113 | the stored record has the string id, the derived media type, and the title or else the name |
| MediaUtils.Removed | src/utils.jsx:129 | the filtered list holds exactly the records whose id differs, so the id is no longer listed |
| MediaUtils.AddedProps | src/utils.jsx:105-116 | adding keeps the ids unique, leaves the id listed, and changes nothing when the id was already there |
| MediaUtils.RemoveUndoesAdd | src/utils.jsx:105-116 | removing the id of a title that was just added to a list without it restores the list |
| MediaUtils.RemovedNoMatch | src/utils.jsx:129 | removing an id that is not listed changes nothing |
| MediaUtils.RemovedAppend | src/utils.jsx:129 | filtering distributes over a list with one more record, keeping the remaining records in order |
| MediaUtils.RemovedIdempotent | src/utils.jsx:129 | removing an id twice is the same as removing it once |
| MediaUtils.Watchlist.constructor | src/utils.jsx:89-92 | a missing watchlist reads as `[]` |
| MediaUtils.Watchlist.IsIn | src/utils.jsx:143-146 | true exactly when some record has the id |
| MediaUtils.Watchlist.Add | src/utils.jsx:99-117 | the list becomes the old one with the record appended when its id is new, ids stay unique, and the call returns true |
| MediaUtils.Watchlist.Remove | src/utils.jsx:125-135 | the list becomes the old one without the id's records, ids stay unique, the id is no longer listed, and the call returns true |
| MediaUtils.Watchlist.Toggle | src/utils.jsx:153-162 | a listed title is removed and false returned; any other is added and true returned; the result equals the new membership |
| MediaUtils.RemovedUnique | src/utils.jsx:129 | removing keeps ids unique |
| MediaUtils.FormatRuntime | src/utils.jsx:54-59 | the text is empty exactly for a zero runtime |
| MediaUtils.FormatRuntimeFields | src/utils.jsx:54-59 | an hour or more reads "{h}h {m}m" with h > 0, m < 60 and h*60 + m the runtime; less reads "{m}m" |
| MediaUtils.RoundMinutes | src/utils.jsx:172 | `Math.round(s / 60)` is the integer nearest to s/60, ties rounded up |
| MediaUtils.RemainingTime | src/utils.jsx:169-181 | the number 0 is returned exactly when either duration is 0 |
| MediaUtils.RemainingTimeFields | src/utils.jsx:171-178 | from 60 rounded minutes on, the label is "{h}h{m}m" with m < 60 and h*60 + m the rounded minutes |
| MediaUtils.FirstUsRating | src/utils.jsx:72 | `find`: the rating found is the first US entry of the list; none means the list has no US entry |
| MediaUtils.FirstUsRelease | src/utils.jsx:78 | `find`: the release found is the first US entry of the list; none means the list has no US entry |
| MediaUtils.FirstCertified | src/utils.jsx:80 | `find`: the certification found is the first one of the list that is present and not blank after trimming; none means every one is missing or blank |
| MediaUtils.ContentRating | src/utils.jsx:69-86 | the rating is never empty; with content ratings it is the first US entry's rating, or 'NR' when there is no US entry or its rating is missing or empty; otherwise, with release dates, it is the first non-blank certification of the first US release, or 'NR' when there is no US release, it has no dates or none is certified; with neither list it is 'NR' |
| MediaUtils.ContentRatingIgnoresReleases | src/utils.jsx:71-74 | a title with content ratings gets the same rating whatever its release dates hold |
| MediaUtils.FirstEnglish | src/utils.jsx:201 | the index found is the first logo in English or without a language; none means no logo is |
| MediaUtils.LogoPath | src/utils.jsx:199-209 | a path is returned exactly when there is at least one logo; it is the first English or language-neutral logo's when there is one, else the first logo's |
| HlsAttributes.ResolutionAt | src/components/player/m3u8Utils.js:84 | a match of `RESOLUTION=(\d+)x(\d+)` at a position captures a non-empty run of digits on each side of the 'x' |
| HlsAttributes.FindResolution | src/components/player/m3u8Utils.js:84 | a resolution found has a non-empty all-digit width and height |
| HlsAttributes.FindResolutionLeftmost | src/components/player/m3u8Utils.js:84 | the search returns the match at the leftmost matching position, and none only when the pattern matches nowhere |
| HlsAttributes.FindResolutionNone | src/components/player/m3u8Utils.js:84 | no resolution found means the pattern matches at no later position |
| HlsAttributes.FindResolutionFirst | src/components/player/m3u8Utils.js:84 | a resolution found is the match at a position before which the pattern does not match |
| HlsAttributes.BandwidthAt | src/components/player/m3u8Utils.js:85 | a match of `BANDWIDTH=(\d+)` captures a non-empty run of digits |
| HlsAttributes.FindBandwidth | src/components/player/m3u8Utils.js:85 | a bandwidth found is a non-empty run of digits |
| HlsAttributes.FindBandwidthLeftmost | src/components/player/m3u8Utils.js:85 | the search returns the leftmost match, and none only when the pattern matches nowhere |
| HlsQualities.BaseUrl | src/components/player/m3u8Utils.js:76 | the base is a prefix of the playlist URL that is empty or ends in '/', with no '/' after it in the URL |
| HlsQualities.ProxyBase | src/components/player/m3u8Utils.js:111 | the proxy base is a prefix of the playlist URL |
| HlsQualities.ParseM3U8ForQualities | src/components/player/m3u8Utils.js:73-132 | the loop computes the menu defined by the variant lines: each variant's option in order with "Auto" in front, or nothing when building an option throws |
| HlsQualities.ThrownStays | src/components/player/m3u8Utils.js:78-121 | once building one option has thrown, the parse of any longer prefix has thrown |
| HlsQualities.VariantIndicesProps | src/components/player/m3u8Utils.js:78-83 | the collected positions are increasing, each is a variant tag, and every variant tag before the bound is among them |
| HlsQualities.VariantsInOrder | src/components/player/m3u8Utils.js:78-118 | option k is the one built from the k-th variant tag and the line right after it, so the options follow playlist order |
| HlsQualities.PickedBuilt | src/components/player/m3u8Utils.js:78-118 | options taken from the per-line options at the variant positions are the ones built from those tags and their URI lines |
| HlsQualities.VariantsPicked | src/components/player/m3u8Utils.js:78-118 | the options collected from a prefix are the per-line options at the variant positions of that prefix |
| HlsQualities.VariantTaken | src/components/player/m3u8Utils.js:79-118 | a variant tag appends its option and its position |
| HlsQualities.VariantSkipped | src/components/player/m3u8Utils.js:79-83 | any other line leaves the options and positions unchanged |
| HlsQualities.VariantsThrow | src/components/player/m3u8Utils.js:78-121 | the parse throws exactly when building the option of some variant tag throws |
| HlsQualities.ThrowStep | src/components/player/m3u8Utils.js:78-121 | one more line makes the parse throw exactly when it had thrown or that line is a variant whose option throws |
| HlsQualities.QualitiesShape | src/components/player/m3u8Utils.js:123-131 | the result is empty exactly when the playlist has no variant tag; otherwise "Auto" with the playlist URL comes first and one option per variant follows |
| HlsQualities.NoVariantIndices | src/components/player/m3u8Utils.js:78-83 | no variant tag exactly when no variant position is collected |
| HlsQualities.QualityNameHeight | src/components/player/m3u8Utils.js:87-98 | the name is 'Unknown' exactly without a RESOLUTION match; otherwise it starts with "{height}p" and `parseInt` reads the height back |
| HlsQualities.VariantUrlDirect | src/components/player/m3u8Utils.js:100-103 | without the proxy, an "http" URI is kept and any other is resolved against the playlist's directory, failing when that throws |
| HlsQualities.ProxiedRoundTrip | src/components/player/m3u8Utils.js:106-113 | through the proxy, the variant URL is wrapped as "{proxyBase}/m3u8-proxy?url=…&headers=…" whose `url` parameter decodes back to the variant URL and whose headers are the playlist's own |
| HlsQualities.ProxyUrlRoundTrip | src/components/player/m3u8Utils.js:112 | the built proxy URL starts with the proxy route, ends with the headers, and its `url` parameter decodes back to the wrapped URL |
| HlsQualities.ProxiedUnchanged | src/components/player/m3u8Utils.js:106 | URLs already on the proxy host, and every URL of a playlist not fetched through the proxy, are left alone |
| ZenimePlaylist.ParseM3U8ForQualities | src/pages/embeds/zenime.js:131-188 | the embed page's copy computes the same menu as the player's parser |
| PlayerHelpers.FormatTimeFields | src/components/player/helpers.jsx:1-11 | from one hour on the clock reads "h:mm:ss", below it "m:ss"; minutes and seconds are below 60 and padded to two digits |
| PlayerHelpers.SecondPieces | src/components/player/helpers.jsx:305 | splitting the seconds field on ',' or '.' gives at least one piece |
| PlayerHelpers.CombineValues | src/components/player/helpers.jsx:306 | three whole fields and a fraction sum to h*3600 + m*60 + s seconds plus the fraction in milliseconds |
| PlayerHelpers.ThreeFields | src/components/player/helpers.jsx:304-306 | a text of two digit fields and a last field without ':' is read field by field |
| PlayerHelpers.WholeSeconds | src/components/player/helpers.jsx:305-306 | a seconds field without a fraction reads as its digits with 0 milliseconds |
| PlayerHelpers.FractionSeconds | src/components/player/helpers.jsx:305-306 | a seconds field "ss.fff" reads ss as the seconds and fff as the milliseconds |
| PlayerHelpers.ParseThreeFields | src/components/player/helpers.jsx:303-307 | "h:m:s" with digit fields reads as (h*3600 + m*60 + s) seconds |
| PlayerHelpers.FractionIsMilliseconds | src/components/player/helpers.jsx:305-306 | the digits after the decimal mark count as whole milliseconds however many there are, so "01.5" is one second and five milliseconds |
| PlayerHelpers.FormatParseRoundTrip | src/components/player/helpers.jsx:1-11 | from one hour on, reading back a formatted whole-second time gives that time; below one hour the two-field text fails with a TypeError |
| PlayerHelpers.FormatParseLong | src/components/player/helpers.jsx:303-307 | a formatted time of an hour or more reads back as itself |
| PlayerHelpers.FormatParseShort | src/components/player/helpers.jsx:303-307 | a formatted time below an hour has only two ':' fields and is refused |
| PlayerQualities.NextUriFirst | src/components/player/helpers.jsx:422-429 | the URL found is the first later line that is neither blank nor a '#' line, trimmed; none only when there is no such line |
| PlayerQualities.FindNextUri | src/components/player/helpers.jsx:422-429 | the inner loop returns the first later non-blank, non-'#' line, trimmed |
| PlayerQualities.BaseDirPrefix | src/components/player/helpers.jsx:440-441 | the playlist URL without its last segment, followed by '/', is the URL up to and including its last '/' |
| PlayerQualities.KeptFlags | src/components/player/helpers.jsx:431 | one flag per line |
| PlayerQualities.Positions | src/components/player/helpers.jsx:413-431 | every collected position is below the bound and flagged |
| PlayerQualities.KeptIndices | src/components/player/helpers.jsx:413-431 | every kept position is below the bound |
| PlayerQualities.Collected | src/components/player/helpers.jsx:448-457 | entry k is built from the k-th kept line and numbered k |
| PlayerQualities.ExtractQualitiesFromM3U8 | src/components/player/helpers.jsx:403-471 | the result is the collected entries sorted by height, or [] when the fetch failed |
| PlayerQualities.CollectVariants | src/components/player/helpers.jsx:413-462 | the outer loop pushes exactly one entry per kept line, in order |
| PlayerQualities.ReadVariant | src/components/player/helpers.jsx:414-460 | an entry is produced exactly for a stream tag that has a resolution and a later URI line, and it is that line's entry |
| PlayerQualities.KeptIndicesStep | src/components/player/helpers.jsx:413-431 | one more line adds its position exactly when it is kept |
| PlayerQualities.CollectedAppend | src/components/player/helpers.jsx:448-457 | pushing one more kept line appends its entry, numbered by the list length |
| PlayerQualities.KeptIndicesComplete | src/components/player/helpers.jsx:413-431 | the kept positions are increasing, all kept, and include every kept line |
| PlayerQualities.PositionsComplete | src/components/player/helpers.jsx:413-431 | the flagged positions are increasing and include every flagged position |
| PlayerQualities.QualitiesSorted | src/components/player/helpers.jsx:464 | the result is sorted tallest first, is a permutation of the collected entries, keeps equal heights in playlist order, and names each entry "{height}p" in both name and quality |
| PlayerQualities.FinalUrlRelative | src/components/player/helpers.jsx:439-446 | a relative URI becomes the playlist URL up to its last '/' followed by the URI, passed through the proxy builder when there is one |
| ZenimeEmbed.CreateProxyHeaders | src/pages/embeds/zenime.jsx:7-16 | no headers for an empty or unparseable URL; otherwise Origin is "protocol//hostname" and Referer is that origin followed by '/' |
| ZenimeEmbed.CreateProxyUrlRoundTrip | src/pages/embeds/zenime.jsx:18-26 | an empty URL gives ''; otherwise the result starts with "{proxy}/m3u8-proxy?url=" and its `url` parameter decodes back to the stream URL |
| ZenimeEmbed.ProxyAddressShape | src/pages/embeds/zenime.jsx:25 | the proxy address is the route, the encoded URL parameter and the headers parameter in that order |
| ZenimeEmbed.FirstArrow | src/pages/embeds/zenime.jsx:185-188 | the header skip stops at the first line holding "-->", or at the end |
| ZenimeEmbed.TextEnd | src/pages/embeds/zenime.jsx:199-203 | the text of a cue ends at or after the line where it starts |
| ZenimeEmbed.TextEndProps | src/pages/embeds/zenime.jsx:199-203 | cue text runs over non-blank lines without "-->" and stops at a blank line, a "-->" line or the end |
| ZenimeEmbed.Trimmed | src/pages/embeds/zenime.jsx:201 | each line is replaced by its trimmed form |
| ZenimeEmbed.CueTextJoin | src/pages/embeds/zenime.jsx:197-203 | the accumulated text is the trimmed text lines joined by "\n", and it is empty only when there are no text lines |
| ZenimeEmbed.Classify | src/pages/embeds/zenime.jsx:193-195 | a line is plain exactly when it has no "-->"; a timed line carries two "HH:MM:SS.mmm" stamps |
| ZenimeEmbed.CueBlock | src/pages/embeds/zenime.jsx:196-211 | reading a cue body moves forward and yields at most one cue |
| ZenimeEmbed.ParseVTT | src/pages/embeds/zenime.jsx:180-219 | the corrected reader terminates and returns the cues defined from the first "-->" line on |
| ZenimeEmbed.ReadCues | src/pages/embeds/zenime.jsx:190-216 | the outer loop returns the cues defined from its starting line |
| ZenimeEmbed.ReadCueAt | src/pages/embeds/zenime.jsx:191-215 | one corrected turn of the outer loop always advances and emits the cues defined at that line |
| ZenimeEmbed.CueBlockRead | src/pages/embeds/zenime.jsx:196-211 | the inner loop's end line and text give the cue body's result |
| ZenimeEmbed.ReadCueText | src/pages/embeds/zenime.jsx:197-203 | the inner loop stops where the cue text ends and has accumulated that text |
| ZenimeEmbed.CuesWellFormed | src/pages/embeds/zenime.jsx:194-211 | every cue has non-empty text and two "HH:MM:SS.mmm" times |
| ZenimeEmbed.ArrowLinesSkip | src/pages/embeds/zenime.jsx:199 | lines without "-->" add nothing to the count of "-->" lines |
| ZenimeEmbed.TrimArrow | src/pages/embeds/zenime.jsx:191-193 | trimming a line cannot create a "-->" in it |
| ZenimeEmbed.CuesBound | src/pages/embeds/zenime.jsx:190-216 | there are never more cues than lines holding "-->" |
| ZenimeEmbed.AsWrittenStalls | src/pages/embeds/zenime.jsx:193-215 | in the loop as written, a "-->" line that the timing pattern rejects leaves the index and the cues unchanged, so the loop never ends |
| ZenimeEmbed.AsWrittenAdvances | src/pages/embeds/zenime.jsx:190-216 | every other turn of the loop as written advances the index and agrees with the corrected reader |
| ZenimeEmbed.AsWrittenReadsCue | src/pages/embeds/zenime.jsx:195-211 | a matched timing line advances past the cue text and emits the same cue as the corrected reader |
| ZenimeEmbed.ShortTimestampStalls | src/pages/embeds/zenime.jsx:194 | a cue with the short WebVTT form "00:01.000 --> 00:02.000" holds "-->" but matches the pattern nowhere |
| CueTiming.SkipSpaces | src/pages/embeds/primenet.jsx:113 | `\s*` stops at the first position that is not white space, or at the end |
| CueTiming.TimingAt | src/pages/embeds/primenet.jsx:113 | a match of the timing pattern at a position captures two full "HH:MM:SS,mmm" stamps (with '.' for WebVTT) |
| CueTiming.FindTiming | src/pages/embeds/zenime.jsx:194 | a timing found carries two full stamps |
| CueTiming.FindTimingLeftmost | src/pages/embeds/zenime.jsx:194 | the search returns the match at the leftmost matching position, and none only when the pattern matches nowhere |
| CueTiming.NoRoomNoTiming | src/pages/embeds/zenime.jsx:194 | no match can start where fewer than twelve characters are left |
| CueTiming.TimingRoundTrip | src/pages/embeds/primenet.jsx:113 | the pattern accepts "start --> end" for two full stamps and captures them back |
| SrtSubtitles.SeparatorAt | src/pages/embeds/primenet.jsx:103 | a separator `\n\s*\n` matched at a position spans at least two characters |
| SrtSubtitles.FirstSeparator | src/pages/embeds/primenet.jsx:103 | the leftmost separator found starts at or after the search position |
| SrtSubtitles.SplitBlocks | src/pages/embeds/primenet.jsx:103 | splitting always gives at least one block |
| SrtSubtitles.CuesOfStep | src/pages/embeds/primenet.jsx:106-123 | one more block appends its cue, when it has one |
| SrtSubtitles.ParseSRT | src/pages/embeds/primenet.jsx:102-126 | the `forEach` loop returns the cues of the qualifying blocks, in block order |
| SrtSubtitles.CuesOfShape | src/pages/embeds/primenet.jsx:106-123 | there are no more cues than blocks, and every cue has two full "HH:MM:SS,mmm" times |
| SrtSubtitles.SrtBlocks | src/pages/embeds/primenet.jsx:106-121 | one SubRip block per cue, in order |
| SrtSubtitles.ParseSrtRoundTrip | src/pages/embeds/primenet.jsx:102-126 | reading a well-formed SubRip file (index, timing line and text without blank lines per block, one blank line between blocks) gives back its cues in order, the empty file giving none |
| SrtSubtitles.CuesOfBlocks | src/pages/embeds/primenet.jsx:106-123 | the blocks of well-formed cues read back as those cues |
| SrtSubtitles.BlockCueRoundTrip | src/pages/embeds/primenet.jsx:107-121 | one written block reads back as its cue: the index parsed, the two times matched, the text from the third line on |
| SrtSubtitles.SolidBlock | src/pages/embeds/primenet.jsx:107 | a written block has no blank line and no white space at its ends |
| SrtSubtitles.TrimSolid | src/pages/embeds/primenet.jsx:103 | trimming leaves text without white space at its ends unchanged |
| SrtSubtitles.SplitBlocksJoin | src/pages/embeds/primenet.jsx:103 | blocks without blank lines, joined by one blank line, split back into those blocks |
| SrtSubtitles.NoSeparatorInside | src/pages/embeds/primenet.jsx:103 | no separator starts inside a block without blank lines |
| SrtSubtitles.SeparatorBetween | src/pages/embeds/primenet.jsx:103 | the blank line between two blocks is one separator ending where the next block starts |
| PrimeNet.SubtitleTextSources | src/pages/embeds/primenet.jsx:134-151 | an http URL is fetched and succeeds only on an ok response; otherwise the inline content is used, then the URL itself, and the text is missing exactly when both are empty |
| PrimeNet.SrtToVtt | src/pages/embeds/primenet.jsx:157-167 | the loop builds exactly the WebVTT document of the cues: the header followed by one numbered block per cue, in order |
| PrimeNet.DocumentStep | src/pages/embeds/primenet.jsx:159-167 | the document of the first i+1 cues is the document of the first i with block i+1 appended |
| PrimeNet.BlockAppend | src/pages/embeds/primenet.jsx:164-166 | the three appends of one iteration add exactly the cue's block |
| PrimeNet.VttTimeStamp | src/pages/embeds/primenet.jsx:161-162 | on a SubRip stamp the first-',' replacement swaps only the millisecond separator, giving a WebVTT stamp |
| PrimeNet.TrackFor | src/pages/embeds/primenet.jsx:172-177 | the track's label is the language or "Unknown", its srclang the language or "en", and its source the converted document |
| PrimeNet.RemoveChild | src/pages/embeds/primenet.jsx:197 | removing an attached track removes one occurrence and keeps the rest; removing one not attached changes nothing |
| PrimeNet.SubtitleTrackSlot.constructor | src/pages/embeds/primenet.jsx:128-200 | no track attached or recorded, no error |
| PrimeNet.SubtitleTrackSlot.RemoveSubtitleTrack | src/pages/embeds/primenet.jsx:195-200 | only with a recorded track and a video is the track taken off and forgotten; otherwise nothing changes; the recorded track stays attached |
| PrimeNet.SubtitleTrackSlot.LoadSubtitleTrack | src/pages/embeds/primenet.jsx:128-193 | without a video or subtitle nothing changes; otherwise the old track is removed and either the converted track is appended and recorded or the error "Failed to load subtitles: …" is set |
| PrimeBox.FindHeightLeftmost | src/pages/embeds/primebox.jsx:81 | the height read comes from the leftmost position where `(\d+)[pP]` matches, and none is found only when it matches nowhere |
| PrimeBox.HeightOfName | src/pages/embeds/primebox.jsx:81-82 | a name made of digit-free text, a height and 'p' or 'P' yields exactly that height |
| PrimeBox.SkipNonDigits | src/pages/embeds/primebox.jsx:81 | the search passes over characters that are not digits to the first match |
| PrimeBox.HeightWithoutMatch | src/pages/embeds/primebox.jsx:82 | a name where the pattern matches nowhere has height 0 |
| PrimeBox.StreamUrl | src/pages/embeds/primebox.jsx:84 | `streams[name]` is present exactly when some key equals the name |
| PrimeBox.Keys | src/pages/embeds/primebox.jsx:79 | the keys of the streams, one per entry, in order |
| PrimeBox.Formatted | src/pages/embeds/primebox.jsx:80-85 | one entry per quality name, numbered by position, carrying its stream URL and height |
| PrimeBox.QualityListProps | src/pages/embeds/primebox.jsx:80-91 | the sorted list is a permutation of the entries, ordered by falling height, stable among equal heights, and its first entry has the greatest height |
| PrimeBox.VideoProxyUrlRoundTrip | src/pages/embeds/primebox.jsx:102 | the video proxy reads the stream URL back unchanged from the `url` parameter |
| PrimeBox.PrimeBoxPlayer.constructor | src/pages/embeds/primebox.jsx:10-16 | no answer, no qualities, no selection, empty URLs and error |
| PrimeBox.PrimeBoxPlayer.LoadStreams | src/pages/embeds/primebox.jsx:30-111 | an error sets its message (or "Failed to load video") and keeps the rest; a bad status or missing streams gives "No streams found for this content"; otherwise the sorted list is stored, its first entry selected and its proxied URL played, with the errors for an empty list and a missing URL |
| PrimeBox.PrimeBoxPlayer.ChangeQuality | src/pages/embeds/primebox.jsx:118-137 | without an accepted answer or a URL nothing changes; otherwise the entry is selected and its proxied URL played; the answer, list and error never change |
| Xprime.FoxParamsSeries | src/pages/embeds/xprime.jsx:29-36 | the Fox request always sends the id first, and season and episode exactly for a series; the PrimeNet URL of a film carries only the id |
| Xprime.FromSourceShapes | src/pages/embeds/xprime.jsx:38-69 | each backend succeeds exactly on an OK answer with a URL, and then yields its own name, menu index and header with that URL |
| Xprime.FromSourceUnknown | src/pages/embeds/xprime.jsx:27-71 | any other source name gives `undefined` |
| Xprime.ManualChoiceAlone | src/pages/embeds/xprime.jsx:82-84 | a manual choice of a known source depends only on that source's answer, and a success is what that source gave |
| Xprime.AutoChoice | src/pages/embeds/xprime.jsx:86-91 | without a manual choice the page fails exactly when both sources fail, with both messages in order; otherwise it takes Fox when it succeeds first or alone, else PrimeNet |
| Xprime.LoadVideoProps | src/pages/embeds/xprime.jsx:94-109 | after a success the m3u8 proxy reads the chosen stream URL back from the played address and the menu shows the chosen source; after a failure the address and menu index stay and the error is shown |
| EmbedRoute.MediaType | src/pages/embeds/xprime.jsx:25 | the media type is "tv" exactly when both season and episode are present and non-empty, "movie" otherwise |
| Json.EscapeChar | src/pages/embeds/zenime.jsx:23 | every character of a header value is written as a non-empty escape |
| Json.UnescapeChar | src/pages/embeds/zenime.jsx:23 | one escaped character reads back as that character, whatever follows |
| Json.UnescapeEscape | src/pages/embeds/zenime.jsx:23 | the string escaping of `JSON.stringify` loses nothing: the escaped text reads back as the original string |
| Json.EscapeSafe | src/pages/embeds/zenime.jsx:23 | an escaped string holds no control character and every double quote in it is preceded by a backslash, so the literal ends at its closing quote |
| Headers.Names | backend/m3u8proxy/src/libraries/server.ts:59 | `Object.keys` lists the header names in insertion order, one per entry |
| Headers.Get | backend/m3u8proxy/src/libraries/server.ts:50 | reading a header is missing exactly when its name is not among the names |
| Headers.Set | backend/m3u8proxy/src/libraries/server.ts:45-55 | assigning a header keeps the name order and appends the name only when it is new |
| Headers.Delete | backend/m3u8proxy/src/libraries/server.ts:52 | deleting leaves only entries of other names, each of which was there before |
| Headers.SetGet | backend/m3u8proxy/src/libraries/server.ts:45-55 | after an assignment the name reads back the value and every other name reads as before |
| Headers.SetUnique | backend/m3u8proxy/src/libraries/server.ts:45-55 | assigning keeps each name once |
| Headers.SetAbsent | backend/m3u8proxy/src/libraries/server.ts:45 | assigning a name not yet present appends it at the end |
| Headers.GetAppend | netlify/functions/proxy.js:47-53 | with one more pair at the end, earlier pairs of the same name win and a new name reads the added value |
| Headers.DeleteGet | backend/m3u8proxy/src/libraries/server.ts:52-56 | after deleting, the name is absent, every other name reads as before, and names stay unique |
| Sorting.SortDescProps | src/components/player/helpers.jsx:464 | the descending numeric sort orders by falling key, is a permutation of its input, and keeps equal-key elements in their original order |
| Sorting.SortDescLength | src/pages/embeds/primebox.jsx:88 | sorting neither adds nor drops elements |
| Sorting.SortAscProps | src/pages/details/Watch.jsx:121 | the ascending numeric sort orders by rising key, is a permutation of its input and is stable |
| Sorting.InsertDescSorted | src/components/player/helpers.jsx:464 | inserting one element into a sorted list keeps it sorted |
| Sorting.InsertDescPerm | src/components/player/helpers.jsx:464 | inserting adds exactly that element |
| Sorting.InsertDescWithKey | src/components/player/helpers.jsx:464 | the inserted element lands after every element with the same key |
| NetlifyProxy.Sanitized | netlify/functions/proxy.js:4-10 | the sanitised headers are pairs of the input, in order, none with a hop-by-hop name |
| NetlifyProxy.SanitizedGet | netlify/functions/proxy.js:2-10 | a hop-by-hop name, in any letter case, reads as absent after sanitising; any other name keeps its value |
| NetlifyProxy.SanitizedNames | netlify/functions/proxy.js:6-7 | a name survives sanitising exactly when it is not hop-by-hop and was present |
| NetlifyProxy.NamesAppend | netlify/functions/proxy.js:6-7 | the names of two header lists put together are the two name lists put together |
| NetlifyProxy.SanitizedClean | netlify/functions/proxy.js:6-7 | headers without a hop-by-hop name pass unchanged |
| NetlifyProxy.SanitizedIdempotent | netlify/functions/proxy.js:4-10 | sanitising twice gives the same as sanitising once |
| NetlifyProxy.SanitizeHeaders | netlify/functions/proxy.js:4-10 | the copying loop over the entries (none for a missing object) builds exactly the sanitised headers |
| NetlifyProxy.SanitizedStep | netlify/functions/proxy.js:6-7 | each entry is kept exactly when its name is not hop-by-hop |
| NetlifyProxy.SanitizeStep | netlify/functions/proxy.js:7 | assigning the next kept entry to the copy so far appends it |
| NetlifyProxy.EarlierNames | netlify/functions/proxy.js:6 | with distinct names, an entry's name is not yet in the copy when it is reached |
| NetlifyProxy.DigitValue | netlify/functions/proxy.js:56 | a base64 digit has a value below 64 |
| NetlifyProxy.DigitRoundTrip | netlify/functions/proxy.js:56 | every value below 64 reads back from its base64 digit |
| NetlifyProxy.Quad | netlify/functions/proxy.js:56 | three bytes become four digits |
| NetlifyProxy.Base64Length | netlify/functions/proxy.js:56 | the encoding has four characters for every group of up to three bytes |
| NetlifyProxy.Base64RoundTrip | netlify/functions/proxy.js:52-57 | a client decoding the base64 body gets exactly the upstream bytes |
| NetlifyProxy.Base64Step | netlify/functions/proxy.js:56 | a full group of three bytes in front of a decodable rest decodes to those bytes and the rest |
| NetlifyProxy.DecodeOne | netlify/functions/proxy.js:56 | a single last byte, padded with "==", decodes back |
| NetlifyProxy.DecodeTwo | netlify/functions/proxy.js:56 | two last bytes, padded with "=", decode back |
| NetlifyProxy.DecodeQuad | netlify/functions/proxy.js:56 | a full block in front of a decodable rest decodes to its three bytes and the rest |
| NetlifyProxy.QuadBlock | netlify/functions/proxy.js:56 | the four digits of three bytes decode to those bytes, last block or not |
| NetlifyProxy.Sextets | netlify/functions/proxy.js:56 | cutting three bytes into four sextets and joining them again gives the bytes back |
| NetlifyProxy.FromEntries | netlify/functions/proxy.js:47 | `Object.fromEntries` gives an object with each name once |
| NetlifyProxy.FromEntriesUnique | netlify/functions/proxy.js:47 | entries with distinct names make an object with the same pairs in the same order |
| NetlifyProxy.FromEntriesSnoc | netlify/functions/proxy.js:47 | an entry with a new name is appended |
| NetlifyProxy.UniqueSplit | netlify/functions/proxy.js:47 | without its last pair a list of distinct names keeps them distinct, none being the last name |
| NetlifyProxy.WithCorsGet | netlify/functions/proxy.js:47-50 | the three CORS headers read back "*", "*" and "GET,HEAD,POST,OPTIONS"; every other header is the upstream one |
| NetlifyProxy.PreflightGet | netlify/functions/proxy.js:17-21 | the preflight answer allows any origin and the methods GET, HEAD, POST and OPTIONS |
| NetlifyProxy.UpstreamRequest | netlify/functions/proxy.js:37-42 | the upstream request keeps the method, and carries the body exactly when the method is neither GET nor HEAD |
| NetlifyProxy.UpstreamHeaders | netlify/functions/proxy.js:40 | the forwarded headers keep every header that is not hop-by-hop, with its value, and drop the hop-by-hop ones |
| NetlifyProxy.HandleNoUpstream | netlify/functions/proxy.js:14-34 | a preflight answers 204 with the CORS headers and a request without `url` answers 400 "Missing ?url=", both without consulting the upstream |
| NetlifyProxy.HandleUpstream | netlify/functions/proxy.js:36-58 | a failed fetch answers 502 "Upstream fetch failed"; otherwise the upstream status is passed on, with the CORS headers added, other headers unchanged, and a base64 body that decodes to the upstream bytes |
| ProxyServer.MatchRateLimit | backend/m3u8proxy/src/libraries/server.ts:686 | a match of the configuration pattern has two non-empty digit groups, and a host list, when present, is non-empty, starts with a non-space character and holds no line terminator |
| ProxyServer.MatchPeriod | backend/m3u8proxy/src/libraries/server.ts:686 | after "<max> " the period is a non-empty digit group and the maximum is the one read |
| ProxyServer.MatchHosts | backend/m3u8proxy/src/libraries/server.ts:686 | the tail of the pattern keeps both numbers, and a host list it captures is well formed |
| ProxyServer.TrimNotBlank | backend/m3u8proxy/src/libraries/server.ts:697 | a text that is not all white space is not empty after trimming its start |
| ProxyServer.DigitGroups | backend/m3u8proxy/src/libraries/server.ts:686 | "<m> <p><rest>" with digit runs m and p matches with those groups, the rest decided by the tail of the pattern |
| ProxyServer.MatchRateLimitPlain | backend/m3u8proxy/src/libraries/server.ts:686-692 | "<max> <period>" reads back as those two numbers with no host list |
| ProxyServer.MatchRateLimitHosts | backend/m3u8proxy/src/libraries/server.ts:686-693 | "<max> <period> <hosts>" reads back as the two numbers and the host list |
| ProxyServer.SpacedHosts | backend/m3u8proxy/src/libraries/server.ts:686 | a space in front of a host list is white space that trimming removes |
| ProxyServer.MatchRateLimitNone | backend/m3u8proxy/src/libraries/server.ts:686-690 | a setting that does not start with a digit sets no limit |
| ProxyServer.Words | backend/m3u8proxy/src/libraries/server.ts:698 | splitting on white space gives at least one word |
| ProxyServer.FirstSpace | backend/m3u8proxy/src/libraries/server.ts:698 | the first white-space character at or after a position, none when there is none |
| ProxyServer.WordsProps | backend/m3u8proxy/src/libraries/server.ts:696-698 | no word holds white space, and a trimmed text gives no empty word |
| ProxyServer.EscapeRegExp | backend/m3u8proxy/src/libraries/server.ts:712 | escaping never shortens a host |
| ProxyServer.EscapeRegExpRoundTrip | backend/m3u8proxy/src/libraries/server.ts:710-712 | an escaped host reads back as the literal host |
| ProxyServer.HostPart | backend/m3u8proxy/src/libraries/server.ts:700-713 | the slash check rejects a host entry exactly when it starts or ends with '/' without being a "/.../" entry of at least two characters; a "/.../" entry gives its inner text, any other its escaped text |
| ProxyServer.HostError | backend/m3u8proxy/src/libraries/server.ts:700-708 | an entry throws the slash message when malformed, the `SyntaxError` of `new RegExp` when its inner text does not compile, and nothing exactly when neither holds |
| ProxyServer.Parts | backend/m3u8proxy/src/libraries/server.ts:714 | one pattern part per well-formed host entry, in order |
| ProxyServer.UnlimitedParts | backend/m3u8proxy/src/libraries/server.ts:694-715 | the loop over the host entries succeeds exactly when every entry is well formed and every "/.../" entry's inner text compiles, giving their parts in order; otherwise it fails with the error of the first entry that throws |
| ProxyServer.UnlimitedSource | backend/m3u8proxy/src/libraries/server.ts:716 | the combined pattern is anchored at both ends |
| ProxyServer.StripScheme | backend/m3u8proxy/src/libraries/server.ts:727 | removing the scheme never lengthens the origin |
| ProxyServer.SchemeLength | backend/m3u8proxy/src/libraries/server.ts:727 | the length of the leading run of word characters and '-' |
| ProxyServer.StripSchemeOf | backend/m3u8proxy/src/libraries/server.ts:727 | "scheme://host" gives the host, and a host without ':' is left as it is |
| ProxyServer.SchemeRun | backend/m3u8proxy/src/libraries/server.ts:727 | the run of scheme characters stops at the first other character |
| ProxyServer.Admit | backend/m3u8proxy/src/libraries/server.ts:731-736 | an admitted request raises the host's count by one without passing the maximum |
| ProxyServer.AdmittedFirst | backend/m3u8proxy/src/libraries/server.ts:731-736 | of successive requests of one host in a period, exactly the first max minus count are admitted |
| ProxyServer.RateLimiter.constructor | backend/m3u8proxy/src/libraries/server.ts:691-722 | the limiter holds the limit, the period and the unlimited pattern, and no counts |
| ProxyServer.RateLimiter.CheckRateLimit | backend/m3u8proxy/src/libraries/server.ts:726-737 | an unlimited host is let through without counting; otherwise the count goes up by one, or the request is rejected with the message when the maximum is reached and the count stays; every count stays between 1 and the maximum |
| ProxyServer.RateLimiter.Reset | backend/m3u8proxy/src/libraries/server.ts:720-722 | a new period starts with no counts |
| ProxyServer.CreateRateLimitChecker | backend/m3u8proxy/src/libraries/server.ts:667-738 | a setting that does not match gives no limiter; a host entry that is malformed or does not compile, or a combined pattern that does not compile, gives an error; otherwise a fresh limiter with the parsed numbers, no counts and the unlimited pattern when hosts are listed |
| ProxyServer.CorsHeadersMeaning | backend/m3u8proxy/src/libraries/server.ts:44-62 | allow-origin is '*'; max-age is set only for OPTIONS with a non-zero max age; the requested method and headers are allowed; every other header is kept |
| ProxyServer.CorsExposeHeaders | backend/m3u8proxy/src/libraries/server.ts:59 | expose-headers lists every header name in order, itself last unless it was already present |
| ProxyServer.ExposeNames | backend/m3u8proxy/src/libraries/server.ts:59 | setting expose-headers to the joined names keeps the names in front and lists them |
| ProxyServer.CorsBaseNames | backend/m3u8proxy/src/libraries/server.ts:45-57 | the CORS headers come after the existing ones and expose-headers is untouched before line 59 |
| ProxyServer.CorsBaseExpose | backend/m3u8proxy/src/libraries/server.ts:45-57 | the headers set before line 59 leave expose-headers as it was |
| ProxyServer.CorsBasePrefix | backend/m3u8proxy/src/libraries/server.ts:45-57 | the existing header names stay in front |
| ProxyServer.SetPrefix | backend/m3u8proxy/src/libraries/server.ts:45-57 | setting one optional header keeps the names before it in front |
| ProxyServer.CorsRequestHeadersMeaning | backend/m3u8proxy/src/libraries/server.ts:50-57 | after withCORS the request no longer carries the answered preflight headers and keeps every other header |
| ProxyServer.FollowCounted | backend/m3u8proxy/src/libraries/server.ts:165-215 | a redirect is followed exactly when it is a 301, 302 or 303 with a resolvable location and the count after it is within the limit; a rewritten location means a 307 or 308, or the limit passed |
| ProxyServer.FollowedBound | backend/m3u8proxy/src/libraries/server.ts:173-207 | a request follows at most the maximum number of redirects in all |
| ProxyServer.ForwardedHeadersMeaning | backend/m3u8proxy/src/libraries/server.ts:216-228 | no cookie reaches the client, x-final-url is the upstream location, Location points through the proxy exactly when the redirect is passed on, and every other header is kept |
| ProxyServer.ProxyRequest.constructor | backend/m3u8proxy/src/libraries/server.ts:149-163 | a request with its state and no redirect yet |
| ProxyServer.ProxyRequest.WithCORS | backend/m3u8proxy/src/libraries/server.ts:44-62 | the returned headers are the CORS headers and the request loses the answered preflight headers; nothing else changes |
| ProxyServer.ProxyRequest.FollowTo | backend/m3u8proxy/src/libraries/server.ts:187-192 | the redirect is recorded in a response header, and the request becomes a GET of the new location with content-length "0" and no content-type |
| ProxyServer.ProxyRequest.OnProxyResponse | backend/m3u8proxy/src/libraries/server.ts:149-231 | x-request-url is shown on the first response; a followable redirect within the limit turns the request into a GET of the new location; anything else is forwarded with the rewritten, cookie-free CORS headers |
| ProxyServer.UrlRun | backend/m3u8proxy/src/libraries/server.ts:791 | the run of URL characters stays within the line |
| ProxyServer.UrlMatchEnd | backend/m3u8proxy/src/libraries/server.ts:791 | a match of the URL pattern is non-empty and within the line |
| ProxyServer.FirstUrl | backend/m3u8proxy/src/libraries/server.ts:791-792 | `exec` finds the leftmost match, and none only when the pattern matches nowhere |
| ProxyServer.ReplaceUrlsNone | backend/m3u8proxy/src/libraries/server.ts:793 | a key line without a URL is unchanged |
| ProxyServer.ReplaceUrlsFirst | backend/m3u8proxy/src/libraries/server.ts:793 | the text before the first URL is kept and the URL replaced, then the rest is processed alike |
| ProxyServer.ReplaceUrlsAbsent | backend/m3u8proxy/src/libraries/server.ts:793 | replacing never brings in a character that neither the line nor the replacement holds |
| ProxyServer.ProxiedUrlTarget | backend/m3u8proxy/src/libraries/server.ts:799 | the proxy reads the target URL back from the `url` parameter of a rewritten line |
| ProxyServer.EncodedOneLine | backend/m3u8proxy/src/libraries/server.ts:799 | an encoded component holds no line break |
| ProxyServer.ProxiedUrlOneLine | backend/m3u8proxy/src/libraries/server.ts:799 | a proxy URL holds no line break when the server URL has none |
| ProxyServer.RewriteLine | backend/m3u8proxy/src/libraries/server.ts:788-800 | a line fails exactly when it is not a tag and cannot be resolved against the playlist URL |
| ProxyServer.RewriteLineKinds | backend/m3u8proxy/src/libraries/server.ts:788-800 | tags other than keys are kept; a key line's first URL points to the segment proxy; any other line is resolved and routed to the playlist proxy in a master playlist and to the segment proxy otherwise |
| ProxyServer.RewriteLineOneLine | backend/m3u8proxy/src/libraries/server.ts:788-800 | a rewritten line holds no line break |
| ProxyServer.RewriteLines | backend/m3u8proxy/src/libraries/server.ts:785-801 | the loop fails exactly when some line cannot be resolved, and otherwise gives every line rewritten, in order |
| ProxyServer.ProxyM3U8 | backend/m3u8proxy/src/libraries/server.ts:745-860 | a failed fetch answers 500 with the error message; otherwise a playlist mentioning "RESOLUTION=" is a master one, and the answer is 200 with the playlist headers and the lines rewritten and joined |
| ProxyServer.RewriteKeepsLines | backend/m3u8proxy/src/libraries/server.ts:816 | the rewritten playlist splits back into the rewritten lines, as many as the original has |
| SettingsMenu.FormatQualityOptionProps | src/components/player/ui/settings.js:29-33 | a name without either release group is unchanged; otherwise only the first "SubsPlease" becomes "SubsPls" and then only the first "Bunny-Apocalypse" becomes "Bunny" |
| SettingsMenu.WithSubsPlease | src/components/player/ui/settings.js:31-32 | with a first "SubsPlease" at i, that occurrence alone is shortened |
| SettingsMenu.WithoutSubsPlease | src/components/player/ui/settings.js:31-32 | without "SubsPlease" only the first "Bunny-Apocalypse" is shortened, and a name with neither is unchanged |
| SettingsMenu.StampMark | src/components/player/ui/settings.js:106 | a ',' or '.' before the milliseconds reads the same, because the first ',' becomes '.' |
| SettingsMenu.ReplaceCommaAt | src/components/player/ui/settings.js:106 | only the first ',' becomes '.' |
| SettingsMenu.ReplaceCommaNone | src/components/player/ui/settings.js:106 | a text without ',' is unchanged |
| SettingsMenu.FirstWord | src/components/player/ui/settings.js:107 | everything from the first space on is dropped |
| SettingsMenu.ParseStamp | src/components/player/ui/settings.js:105-115 | an "HH:MM:SS.mmm" or "HH:MM:SS,mmm" time, optionally followed by cue settings after a space, reads as its value in milliseconds |
| SettingsMenu.ReadClock | src/components/player/ui/settings.js:109-115 | three digit fields "H", "M" and "S.mmm" read as the clock they write |
| SettingsMenu.StampFields | src/components/player/ui/settings.js:106-109 | the ':' fields of a timestamp are its hours, minutes and seconds-with-milliseconds |
| SettingsMenu.ParseShortStamp | src/components/player/ui/settings.js:116-120 | an "MM:SS.mmm" time reads as minutes and seconds in milliseconds |
| SettingsMenu.ReadShort | src/components/player/ui/settings.js:116-120 | two digit fields "M" and "S.mmm" read as minutes and seconds |
| SettingsMenu.ParseNoColon | src/components/player/ui/settings.js:122-123 | a time without ':' is NaN |
| SettingsMenu.BreakAt | src/components/player/ui/settings.js:76 | a blank-line separator is at least two characters and within the text |
| SettingsMenu.FirstBreak | src/components/player/ui/settings.js:76 | the leftmost separator at or after a position lies within the text |
| SettingsMenu.Entries | src/components/player/ui/settings.js:76 | splitting into entries gives at least one entry |
| SettingsMenu.Lines | src/components/player/ui/settings.js:82 | an entry has as many lines as '\n' characters plus one |
| SettingsMenu.FindTimingLine | src/components/player/ui/settings.js:85-86 | the first line holding "-->", and none only when no line does |
| SettingsMenu.ParseSubtitleManually | src/components/player/ui/settings.js:72-103 | the loop over the entries pushes exactly each entry's cue, in entry order |
| SettingsMenu.CuesOfEntriesBound | src/components/player/ui/settings.js:78-100 | there are no more cues than entries, and every cue is the cue of one of the entries |
| SettingsMenu.EntryCueRoundTrip | src/components/player/ui/settings.js:78-99 | an entry written as a timing line in either mark followed by its text gives back its times in milliseconds and its text |
| SettingsMenu.EntryCueOfTimingLine | src/components/player/ui/settings.js:82-99 | an entry whose first line is "A --> B" with readable times gives those times and the rest of the entry as the text |
| SettingsMenu.EntryOfTimingLine | src/components/player/ui/settings.js:79-88 | such an entry is read through its first line |
| SettingsMenu.EntryLines | src/components/player/ui/settings.js:79-85 | such an entry is not blank, not the bare header, and its first line holds "-->" |
| SettingsMenu.TimingLineFirst | src/components/player/ui/settings.js:82 | the lines of such an entry are the timing line and then the lines of the text |
| SettingsMenu.TimingLineCue | src/components/player/ui/settings.js:88-99 | the two times of the timing line and the remaining lines make the cue |
| SettingsMenu.TimingLineSplit | src/components/player/ui/settings.js:89 | "A --> B" splits on "-->" into exactly two halves |
| SettingsMenu.TrimPadded | src/components/player/ui/settings.js:89 | trimming removes the spaces around the arrow |
| SettingsMenu.EntryNotBlank | src/components/player/ui/settings.js:79-81 | an entry that starts with a digit is neither blank nor the bare header |
| SettingsMenu.CueAt | src/components/player/ui/settings.js:132-137 | the first cue in order with start ≤ now ≤ end, and none only when no cue covers the time |
| SettingsMenu.TextAtProps | src/components/player/ui/settings.js:129-137 | the first covering cue wins even when a later cue also covers the time |
| SettingsMenu.FindCueText | src/components/player/ui/settings.js:129-137 | the loop stops at the first cue on screen and gives its text, or "" when none covers the time |
| SettingsMenu.LoadList | src/components/player/ui/settings.js:616-630 | a missing list gives [], a present one is returned as it is |
| SettingsMenu.SubtitleLabel | src/components/player/ui/settings.js:286 | the label is "Off" for index -1 or a track without a language, otherwise the track's language |
| SettingsMenu.SubtitleMenu.constructor | src/components/player/ui/settings.js:16-25 | no subtitle selected, no cues, no interval, no container, label "Off" |
| SettingsMenu.SubtitleMenu.UpdateSubtitle | src/components/player/ui/settings.js:126-140 | without cues or a container nothing changes; otherwise the container shows the text of the first cue on screen, or nothing |
| SettingsMenu.SubtitleMenu.StopSubtitleDisplay | src/components/player/ui/settings.js:157-168 | the interval stops, the container is emptied and the cues are dropped; the container stays |
| SettingsMenu.SubtitleMenu.StartSubtitleDisplay | src/components/player/ui/settings.js:142-155 | after stopping the old display, a container exists, the parsed cues are loaded, the interval runs and nothing is shown yet |
| SettingsMenu.SubtitleMenu.SelectSubtitle | src/components/player/ui/settings.js:581-593 | -1 turns subtitles off; any other index is stored and its cues displayed; the label follows the choice |
| PlayerSpeed.SpeedIndex | src/components/player/settings.jsx:16 | the first position holding the speed, and -1 exactly when the list does not hold it |
| PlayerSpeed.FirstIndex | src/components/player/settings.jsx:16 | `indexOf`, also used for the watch page's `findIndex` over season numbers: the first position holding the value, -1 exactly when there is none |
| PlayerSpeed.DisabledMeansInert | src/components/player/settings.jsx:25-35 | a button is disabled exactly when its handler would not change the speed |
| PlayerSpeed.SpeedSteps | src/components/player/settings.jsx:15-35 | a listed speed moves one quarter up or down within 0.25 to 2, nothing past either end; an unlisted speed goes up to 0.25 and not down |
| PlayerSpeed.SpeedInList | src/components/player/settings.jsx:15-16 | each listed speed stands at its own position |
| PlayerSpeed.FirstIndexAt | src/components/player/settings.jsx:16 | an entry that differs from all earlier ones is found at its own position |
| PlayerSpeed.SpeedStepsUndo | src/components/player/settings.jsx:25-35 | Slower undoes Faster and Faster undoes Slower |
| PlayerSpeed.SpeedLabelText | src/components/player/settings.jsx:37-40 | the label is the speed's number followed by 'x', normal speed too |
| PlayerSpeed.QuarterTextValue | src/components/player/settings.jsx:37-40 | the number shown reads back as the speed |
| PlayerSpeed.QuarterSuffixValue | src/components/player/settings.jsx:37-40 | a whole part and the fraction digits of a quarter read back as that many thousandths |
| PlayerSpeed.QuarterFractionValue | src/components/player/settings.jsx:37-40 | a '.' and the digits 25, 5 or 75 read back as that many quarters |
| PlayerSpeed.QuarterDigitsValue | src/components/player/settings.jsx:37-40 | the fraction digits of a quarter are at most three digits worth that quarter |
| PreviewVideo.FormatTimeRoundTrip | src/components/player/ui/previewVideo.js:17-21 | the preview label is the minutes, ':' and a two-digit seconds field, and reading both back gives the time |
| PreviewVideo.DigitsNoColon | src/components/player/ui/previewVideo.js:20 | the digits of a number hold no ':' |
| PreviewVideo.Eligibles | src/components/player/ui/previewVideo.js:31-34 | the filter keeps exactly the options whose lower-cased name is not "auto" and names a resolution, and no more of them than there were |
| PreviewVideo.EligiblesAppend | src/components/player/ui/previewVideo.js:31-34 | filtering a concatenation is the concatenation of the filtered parts, so the kept options stay in their order |
| PreviewVideo.EligiblesSnoc | src/components/player/ui/previewVideo.js:31-34 | the empty list keeps nothing, and one more option is appended exactly when it is eligible |
| PreviewVideo.LowestIsFirstSmallest | src/components/player/ui/previewVideo.js:42-48 | the option the ascending sort puts first has the smallest resolution number and is the earliest with it |
| PreviewVideo.FirstWithKey | src/components/player/ui/previewVideo.js:42-48 | the first position with a given key exists once some position has it |
| PreviewVideo.WithKeyFirst | src/components/player/ui/previewVideo.js:42-48 | the elements with a key start with the first element that has it |
| PreviewVideo.LowestQualityVideoLinkProps | src/components/player/ui/previewVideo.js:23-56 | no options, or none naming a resolution, give no link; otherwise the link is the url (or, outside a native embed, the link) of the lowest option |
| PreviewVideo.NoneEligible | src/components/player/ui/previewVideo.js:31-39 | when no option names a resolution the filter keeps nothing |
| AnimeSearch.Max | src/pages/anime/search.jsx:137 | `Math.max` of two numbers |
| AnimeSearch.Min | src/pages/anime/search.jsx:138 | `Math.min` of two numbers |
| AnimeSearch.WindowBounds | src/pages/anime/search.jsx:135-142 | with more than one page the window lies within 1..total, holds min(5, total) pages, and holds the current page whenever it exists |
| AnimeSearch.PageNumbers | src/pages/anime/search.jsx:175-190 | one page link per number of the window |
| AnimeSearch.PageNumbersAt | src/pages/anime/search.jsx:175-190 | the k-th page link leads to page start+k and is active exactly when that is the current page |
| AnimeSearch.RenderPaginationControls | src/pages/anime/search.jsx:131-225 | nothing for at most one page; otherwise exactly the bar of the window: arrows, first page, ellipses, the loop's page links and last page, in push order |
| AnimeSearch.PageNumbersSnoc | src/pages/anime/search.jsx:175-190 | one more loop iteration appends the link of the next page |
| AnimeSearch.ControlsProps | src/pages/anime/search.jsx:144-222 | the previous link appears exactly when current > 1, the next link exactly when current < total, the first-page link and leading ellipsis exactly when the window starts after 1 and 2, the last-page link and trailing ellipsis exactly when it ends before total and total-1, and only the current page is active |
| AnimeSearch.BarLinks | src/pages/anime/search.jsx:144-222 | the arrows, end links and ellipses of any window appear under exactly those conditions |
| AnimeSearch.BarHeadLinks | src/pages/anime/search.jsx:144-172 | the controls before the page numbers appear under exactly their conditions |
| AnimeSearch.BarTailLinks | src/pages/anime/search.jsx:192-222 | the controls after the page numbers appear under exactly their conditions |
| AnimeSearch.BarPages | src/pages/anime/search.jsx:174-190 | the bar's page links are exactly the window's numbers, each active exactly when current |
| AnimeSearch.BarParts | src/pages/anime/search.jsx:144-222 | the bar holds exactly the controls before, the page links and the controls after |
| AnimeSearch.HeadMembers | src/pages/anime/search.jsx:144-172 | the controls before the numbers are exactly the previous link, the first page and the leading ellipsis under their conditions |
| AnimeSearch.TailMembers | src/pages/anime/search.jsx:192-222 | the controls after the numbers are exactly the trailing ellipsis, the last page and the next link under their conditions |
| AnimeSearch.PageNumbersMembers | src/pages/anime/search.jsx:175-190 | the page links hold exactly the numbers of the range, each active exactly when current |
| AnimeSearch.OneActivePage | src/pages/anime/search.jsx:175-177 | within range, exactly one page of the bar is active, the current one |
| AnimeSearch.PageParam | src/pages/anime/search.jsx:20 | a missing, unreadable or zero page parameter reads as 1, so the page is never 0 |
| AnimeSearch.SearchPage.constructor | src/pages/anime/search.jsx:14 | no query, page 1, the last search empty with page 0, no requests |
| AnimeSearch.SearchPage.OnSearchParams | src/pages/anime/search.jsx:16-47 | a present query that differs from the last search in text or page is shown, remembered and searched unless it is only white space; otherwise nothing changes |
| AnimeSearch.RepeatedParamsSearchOnce | src/pages/anime/search.jsx:22-29 | the same parameters a second time make no new search |
| AnimeHome.NextSpotlight | src/pages/anime/home.jsx:146 | the next index exists exactly when there are spotlights, and then lies within the list |
| AnimeHome.PreviousSpotlight | src/pages/anime/home.jsx:151 | the previous index exists exactly when there are spotlights, and then lies within the list |
| AnimeHome.SpotlightStepsUndo | src/pages/anime/home.jsx:145-153 | from a shown spotlight the two arrows undo each other, and each moves one place round the ring |
| AnimeHome.ModSmall | src/pages/anime/home.jsx:146 | a remainder of a smaller number is the number |
| AnimeHome.ModOnce | src/pages/anime/home.jsx:151 | a number between n and 2n leaves the remainder n less |
| AnimeHome.Carousel.constructor | src/pages/anime/home.jsx:25-47 | no spotlights, index 0, no advance running |
| AnimeHome.Carousel.SetSpotlights | src/pages/anime/home.jsx:38-47 | a new list keeps the shown index, and the advance runs exactly when there is more than one spotlight |
| AnimeHome.Carousel.Tick | src/pages/anime/home.jsx:140-142 | one firing of the advance moves to the next spotlight |
| AnimeHome.Carousel.ShowNextSpotlight | src/pages/anime/home.jsx:145-148 | the right arrow moves to the next spotlight and restarts the advance |
| AnimeHome.Carousel.ShowPreviousSpotlight | src/pages/anime/home.jsx:150-153 | the left arrow moves to the previous spotlight and restarts the advance |
| AnimeHome.CategoryEndpoint | src/pages/anime/home.jsx:108-122 | "popular" maps to most-popular, "toprated" to most-favorite, and every other category to top-airing |
| AnimeHome.ResultsOf | src/pages/anime/home.jsx:126 | missing results show an empty list |
| AnimeHome.CategoryLists.constructor | src/pages/anime/home.jsx:25-29 | no category loaded, nothing shown, nothing fetched |
| AnimeHome.CategoryLists.LoadInitial | src/pages/anime/home.jsx:49-70 | top-airing is fetched; a success shows the trending list and marks trending as loaded, a failure changes neither |
| AnimeHome.CategoryLists.LoadAnimeData | src/pages/anime/home.jsx:101-134 | a loaded category does nothing; otherwise its endpoint is fetched, and it is marked as loaded only on success, a failure showing an empty list |
| AnimeHome.SidebarList | src/pages/anime/home.jsx:77-93 | a sidebar list is the first five results at most, empty when they are missing |
| Watch.SourceFlags | src/pages/details/Watch.jsx:43-51 | no source both shows the ad notice and runs sandboxed, both kinds are listed sources, and the default Native source is neither |
| Watch.Numbered | src/pages/details/Watch.jsx:121 | the filter keeps exactly the seasons numbered above 0, and adds none |
| Watch.AvailableSeasonsProps | src/pages/details/Watch.jsx:121 | the reachable seasons are exactly the numbered ones, each as often as listed, in ascending order |
| Watch.FindEpisode | src/pages/details/Watch.jsx:116 | an episode is found exactly when one with that number is listed, and it is that one |
| Watch.ButtonsMatchSteps | src/pages/details/Watch.jsx:111-199 | the Next button is enabled exactly when its handler has somewhere to go, and so is the Previous button once the season details are loaded |
| Watch.StepsProps | src/pages/details/Watch.jsx:111-173 | within a season the buttons move one episode; across seasons they move to a listed numbered season, not later for Previous and not earlier for Next; an unlisted season sends Next to the first available season |
| Watch.WatchState.constructor | src/pages/details/Watch.jsx:111-173 | the episode given, no season details, no URL updates |
| Watch.WatchState.GoToPreviousEpisode | src/pages/details/Watch.jsx:111-141 | one episode back within the season, or the last episode (1 when none is listed) of the previous season once its details arrive, the title and URL following; otherwise, or when the fetch fails, nothing changes |
| Watch.WatchState.GoToNextEpisode | src/pages/details/Watch.jsx:143-173 | one episode on within the season, or episode 1 of the next season once its details arrive, the title and URL following; otherwise, or when the fetch fails, nothing changes |
| AnimeSources.Or | src/pages/anime/sources.jsx:54-57 | `v \|\| fallback` gives the fallback exactly when the value is missing, empty or already the fallback |
| AnimeSources.FindSourceFound | src/pages/anime/sources.jsx:43 | `find` by id succeeds exactly when some server has that id, and the server found is in the table and has that id |
| AnimeSources.FindSourceAt | src/pages/anime/sources.jsx:43 | `find` returns the first server with the id |
| AnimeSources.DefaultSource | src/pages/anime/sources.jsx:62-64 | the default server is "zenime-1" and looking its id up finds it again |
| AnimeSources.EncodedNoBrace | src/pages/anime/sources.jsx:55 | an `encodeURIComponent` value holds no '{', so it cannot start a later placeholder |
| AnimeSources.ValuesFit | src/pages/anime/sources.jsx:52-59 | the seven replacement values are placeholders paired with brace-free text whenever the raw fields hold no '{' |
| AnimeSources.Placeholders | src/pages/anime/sources.jsx:52-59 | each of the seven patterns of the `replace` chain is a `{name}` placeholder |
| AnimeSources.UnknownSourceIsBlank | src/pages/anime/sources.jsx:43-44 | an id that no server has gives "about:blank", whatever the language and data |
| Templates.FillFirstWellFormed | src/pages/anime/sources.jsx:52-59 | filling a placeholder with a brace-free value keeps the template well formed |
| Templates.ReplaceFirstFills | src/pages/anime/sources.jsx:52-59 | a string-pattern `replace` of a placeholder on a well-formed template replaces the first placeholder part of that name, and nothing else |
| Templates.ReplaceChainFills | src/pages/anime/sources.jsx:52-59 | the whole `replace` chain fills the template's placeholders value by value, each at its first part only |
| Templates.LookupFirst | src/pages/anime/sources.jsx:52-59 | the value a name gets is the one at its first pair in the chain |
| Templates.FillChainSubstitutes | src/pages/anime/sources.jsx:52-59 | with distinct placeholder names, filling value by value equals substituting every placeholder at once, the first value of a name winning |
| Templates.SubstituteNothing | src/pages/anime/sources.jsx:52-59 | substituting no values leaves the template unchanged |
| Templates.FillFirstDistinct | src/pages/anime/sources.jsx:52-59 | filling keeps placeholder names distinct and adds no placeholder |
| Templates.FillFirstSubstitutes | src/pages/anime/sources.jsx:52-59 | filling the first value then substituting the rest is substituting them all |
| Templates.WithoutSlot | src/pages/anime/sources.jsx:52-59 | a value whose placeholder the template lacks changes nothing |
| AnimeSourceUrls.SourceUrl | src/pages/anime/sources.jsx:42-59 | for a found server whose selected template is a well-formed rendering with distinct placeholders, the URL is that template with every placeholder replaced by its value |
| AnimeSourceUrls.EpidValue | src/pages/anime/sources.jsx:53 | `{epid}` gets the raw `epid` ("undefined" when missing) |
| AnimeSourceUrls.UrlEpisodeIdValue | src/pages/anime/sources.jsx:55 | `{urlepisodeId}` gets the encoded episode id, or "" when missing or empty |
| AnimeSourceUrls.SeasonValue | src/pages/anime/sources.jsx:57 | `{season}` gets the season, or "1" when missing or empty |
| AnimeSourceUrls.EpisodeValue | src/pages/anime/sources.jsx:58 | `{episode}` gets the episode number as text |
| AnimeSourceUrls.NameValue | src/pages/anime/sources.jsx:59 | `{name}` gets the encoded anime name |
| AnimeSourceUrls.ZenimeFound | src/pages/anime/sources.jsx:4-21 | each of the three zenime servers is found by its own id |
| AnimeSourceUrls.AnimepaheFound | src/pages/anime/sources.jsx:22-27 | "animepahe" finds the fourth server |
| AnimeSourceUrls.AniplayFound | src/pages/anime/sources.jsx:28-33 | "aniplay" finds the fifth server |
| AnimeSourceUrls.MegaplayFound | src/pages/anime/sources.jsx:34-39 | "megaplaybz-1" finds the sixth server |
| AnimeSourceUrls.ZenimeTemplate | src/pages/anime/sources.jsx:4-21 | a zenime template is "/e/zenime/{urlepisodeId}" followed by the server name and the language path |
| AnimeSourceUrls.AnimepaheTemplate | src/pages/anime/sources.jsx:22-27 | the animepahe template is the same for both languages and has four placeholders |
| AnimeSourceUrls.AniplayTemplate | src/pages/anime/sources.jsx:28-33 | the aniplay template has the episode id and number, then the language path |
| AnimeSourceUrls.MegaplayTemplate | src/pages/anime/sources.jsx:34-39 | the megaplay template has `{epid}`, then the language path |
| AnimeSourceUrls.ZenimeUrl | src/pages/anime/sources.jsx:4-59 | a zenime URL is the server path with the encoded episode id (or nothing) and ends in "/dub" exactly for the dub language |
| AnimeSourceUrls.AnimepaheUrl | src/pages/anime/sources.jsx:22-59 | the animepahe URL carries the encoded episode id, the encoded name, the season (1 when missing) and the episode number, in any language |
| AnimeSourceUrls.AniplayUrl | src/pages/anime/sources.jsx:28-59 | the aniplay URL carries the encoded episode id and the episode number, then the language path |
| AnimeSourceUrls.MegaplayUrl | src/pages/anime/sources.jsx:34-59 | the megaplay URL carries the raw `epid`, then the language path |
| DetailsSources.ServerOf | src/pages/details/Sources.jsx:2-38 | a server the switch selects has the name as its `case` label |
| DetailsSources.ServerOfName | src/pages/details/Sources.jsx:2-38 | the switch misses exactly the names that are none of the seven labels, and every server is selected by its own label |
| DetailsSources.GetSource | src/pages/details/Sources.jsx:1-40 | the result is the 'Invalid source' error exactly when the name is no known server |
| DetailsSources.TemplateChoice | src/pages/details/Sources.jsx:4-36 | a movie URL does not depend on season and episode, and every type other than "movie" gets the tv URL |
| DetailsSources.DefaultsAreZero | src/pages/details/Sources.jsx:1 | omitted season and episode give the URL for season 0, episode 0 |
| DetailsSources.NativePath | src/pages/details/Sources.jsx:3-6 | the Native URL splits on '/' back into "e", "primenet", the id and, for tv, the season and episode, when none of them holds a '/' |
| DetailsSources.NativeMovie | src/pages/details/Sources.jsx:5 | the movie path "/e/primenet/{id}" splits into its four parts |
| DetailsSources.NativeShow | src/pages/details/Sources.jsx:6 | the tv path "/e/primenet/{id}/{season}/{episode}" splits into its six parts |
| AnimeData.OrOne | src/components/anime/animeData.jsx:46 | `parseInt(...) \|\| 1` is never 0 and keeps any non-zero number |
| AnimeData.TotalPages | src/components/anime/animeData.jsx:39-52 | the page count is never 0, and is 1 when no pagination element is there |
| AnimeData.TotalPagesFromLinks | src/components/anime/animeData.jsx:44-49 | a "Last" link ending in `=n` gives n pages whatever the other links say; without one a "Next" link ending in `=n` does |
| AnimeData.RemoveOthers | src/components/anime/animeData.jsx:373 | what `/[^\w\s-]/g` leaves is word characters, white space and '-', and it adds no upper-case letter |
| AnimeData.DropDashes | src/components/anime/animeData.jsx:375 | dropping a leading run of '-' leaves a suffix that does not start with '-' |
| AnimeData.DashSpacesSlugChars | src/components/anime/animeData.jsx:374 | turning runs of white space into '-' leaves only slug characters |
| AnimeData.CollapseDashesSlug | src/components/anime/animeData.jsx:375 | collapsing runs of '-' leaves no double dash and keeps the first character |
| AnimeData.SlugIsSlug | src/components/anime/animeData.jsx:372-375 | the part of `formatTitle` before the id is lower-case word characters and single dashes |
| AnimeData.ToLowerSlug | src/components/anime/animeData.jsx:372 | `toLowerCase` keeps slug characters |
| AnimeData.RemoveOthersSlug | src/components/anime/animeData.jsx:373 | removing other characters keeps slug characters |
| AnimeData.DashSpacesSlug | src/components/anime/animeData.jsx:374 | a string without white space is unchanged by the white-space rule |
| AnimeData.CollapseDashesStable | src/components/anime/animeData.jsx:375 | a slug has no dash run to collapse |
| AnimeData.SlugStable | src/components/anime/animeData.jsx:370-376 | a title already in slug form is its own slug, and `formatTitle` then only appends '-' and the id |
| AnimeData.SlugIdempotent | src/components/anime/animeData.jsx:372-375 | making a slug twice gives the same slug |
| AnimeData.FormatTitleShowId | src/components/anime/animeData.jsx:370-376 | the show id read back with `split("-").pop()` from a `formatTitle` id is the dash-free id it was built from, with or without a title |
| AnimeData.SeasonFrom | src/components/anime/animeData.jsx:445-446 | the season is a non-empty run of digits |
| AnimeData.SeasonLeftmost | src/components/anime/animeData.jsx:445-446 | the season is the digit run after the leftmost "season-" that a digit follows |
| AnimeData.SeasonAbsent | src/components/anime/animeData.jsx:445-446 | without such a "season-" the season is "1" |
| AnimeData.WatchLinkEpisode | src/components/anime/animeData.jsx:483-496 | for a link `.../<slug>?ep=<n>` the episode id is the last path piece, `epid` is n, and `episodeid` is the id with "_s" and the season appended |
| AnimeData.EpidAfterQuery | src/components/anime/animeData.jsx:493 | the text after "?ep=" is the digits that follow it |
| AnimeData.EpisodesFromLinks | src/components/anime/animeData.jsx:475-507 | one episode per link in link order, with the link count as total, or the empty list when a link without href makes `epId.includes` throw |
| AnimeData.FetchEpisodesList | src/components/anime/animeData.jsx:442-509 | an error or a response without `html` gives the empty list; otherwise the links' episodes of the season the id names, or the empty list when a link throws |
| AnimeCache.EvictedEntries | src/components/anime/animeData.jsx:143-150 | the eviction loop deletes exactly the entries older than five minutes and leaves the others as they were |
| AnimeCache.StoredServed | src/components/anime/animeData.jsx:137-150 | an entry just stored is served at once and for the next five minutes, whatever the eviction did, and entries for other keys are kept or evicted, never changed |
| AnimeCache.LookupKeepsOthers | src/components/anime/animeData.jsx:15-23 | a lookup serves data exactly for a fresh entry, never leaves a stale entry for the key, and keeps every other key |
| AnimeCache.TtlCache.constructor | src/components/anime/animeData.jsx:5-6 | a new cache is empty |
| AnimeCache.TtlCache.Lookup | src/components/anime/animeData.jsx:15-23 | returns the fresh entry's data, else nothing, and deletes a stale entry for the key |
| AnimeCache.TtlCache.Store | src/components/anime/animeData.jsx:137-150 | inserts the entry stamped now and, when the cache then holds more than the limit, runs the eviction loop over every key |
| AnimeCache.DataKeyInjective | src/components/anime/animeData.jsx:12 | two listings share a cache key only when they are the same category and page |
| AnimeCache.FetchAnimeData | src/components/anime/animeData.jsx:9-157 | a fresh cached listing is returned with the cache unchanged; otherwise a failed fetch gives `{totalPages: 0, results: []}` after the stale entry is dropped, and a successful one is returned and stored with threshold 30 |
| AnimeCache.FetchAnimeInfo | src/components/anime/animeData.jsx:159-368 | as the listing cache, keyed by the id with threshold 20, and `null` on failure |
| EpisodeThumbnails.OrNull | src/components/anime/episodeThumbnails.jsx:56-57 | `v \|\| null` keeps exactly the non-empty values |
| EpisodeThumbnails.FindEpisodeFirst | src/components/anime/episodeThumbnails.jsx:50 | `find` gives nothing exactly when no episode has the number, else the first episode with it |
| EpisodeThumbnails.ThumbnailFields | src/components/anime/episodeThumbnails.jsx:50-58 | an entry keeps its number and a non-empty name; without a TMDB match it has "Episode n" and no image, description or air date; a match's non-empty name and still are taken |
| EpisodeThumbnails.FetchTmdbThumbnails | src/components/anime/episodeThumbnails.jsx:35-66 | null without an id or when the season request fails, else one entry per episode number 1..episodeCount in order |
| EpisodeThumbnails.FetchEpisodeThumbnails | src/components/anime/episodeThumbnails.jsx:6-33 | null without an episode count or a title, or when no TMDB id is found or a request fails; else episodeCount entries numbered from 1, entry k being `ThumbnailFor` episode k+1 of the season fetched for the season search's show and season, or the title search's show |
| BrowseHome.Held | src/pages/browse/Home.jsx:265-271 | the record the reduce holds for a key is one of the records and has that key |
| BrowseHome.HeldNone | src/pages/browse/Home.jsx:265-271 | nothing is held for a key exactly when no record has it |
| BrowseHome.HeldIsLatest | src/pages/browse/Home.jsx:267 | the held record has the largest timestamp among the records of its key, and every earlier record of the key is strictly older, so a tie keeps the earlier one |
| BrowseHome.HeldStep | src/pages/browse/Home.jsx:266-269 | one reduce step changes the held record only for the new record's key, and only when the key is new or the record strictly newer |
| BrowseHome.KeysStep | src/pages/browse/Home.jsx:265-271 | one reduce step appends the record's key to the key order exactly when it is new |
| BrowseHome.KeysInOrderProps | src/pages/browse/Home.jsx:265-273 | the accumulator's keys are distinct and are exactly the keys of the records |
| BrowseHome.LatestEpisodes | src/pages/browse/Home.jsx:265-273 | the continue-watching row has one record per "{id}-{mediaType}" key, in first-appearance order, each the record the reduce holds |
| BrowseHome.LatestByKey | src/pages/browse/Home.jsx:265-271 | the accumulator maps exactly the keys seen, in insertion order, each to the record the reduce holds |
| BrowseHome.ReduceStep | src/pages/browse/Home.jsx:266-269 | one step of the reduce keeps the accumulator equal to the held records |
| BrowseHome.ReduceTakes | src/pages/browse/Home.jsx:267-268 | a record with a new key, or newer than the held one, replaces it |
| BrowseHome.ReduceKeeps | src/pages/browse/Home.jsx:267 | a record no newer than the held one leaves the accumulator as it is |
| BrowseHome.ValuesInOrder | src/pages/browse/Home.jsx:273 | `Object.values` lists the accumulator's values in key insertion order |
| BrowseHome.LatestEpisodesMeaning | src/pages/browse/Home.jsx:265-273 | each record of the row comes from the input, has its key, and is among the latest of its title |
| BrowseHome.ScrollsShowAll | src/pages/browse/Home.jsx:200-204 | scrolls grow `visibleItems` to at least the item count once four per scroll cover it, and to exactly the count when it started at most there |
| BrowseHome.CategorySection.constructor | src/pages/browse/Home.jsx:190-191 | a section starts with its items and `visibleItems` 4 |
| BrowseHome.CategorySection.Displayed | src/pages/browse/Home.jsx:209 | the displayed items are the prefix of length min(visibleItems, item count) |
| BrowseHome.CategorySection.HandleScroll | src/pages/browse/Home.jsx:195-207 | within 200px of the end `visibleItems` grows by four, capped at the item count, while some items are hidden; otherwise nothing changes |
| BrowseHome.CategorySection.SetItems | src/pages/browse/Home.jsx:190-191 | new items from the parent keep the current `visibleItems` |
| BrowseHome.GrownKeepsPrefix | src/pages/browse/Home.jsx:204 | a scroll never hides an item and shows at most four more |
| BrowseHome.ContinueKeyDistinct | src/pages/browse/Home.jsx:224 | two cards of one title share a key only with the same season and episode |
| Url.SchemeEnd | backend/m3u8proxy/src/libraries/server.ts:798 | a scheme found at the start of a URL begins with a letter, is made of scheme characters and ends at a ':' |
| Url.Resolve | backend/m3u8proxy/src/libraries/server.ts:798 | `new URL(line, url)` throws exactly when the base is not an absolute URL, whatever the reference; an absolute reference is kept as cleaned |
| Url.ResolveKeepsScheme | backend/m3u8proxy/src/libraries/server.ts:798 | a reference without a scheme of its own resolves to a URL with the base's scheme |
| Url.ResolveRelativePath | backend/m3u8proxy/src/libraries/server.ts:798 | a plain relative path resolved against a base whose path ends in '/' is appended to the base |
| Url.CleanReference | backend/m3u8proxy/src/libraries/server.ts:798 | a reference is parsed with no tab, carriage return or newline left in it |
| Url.Utf8 | backend/m3u8proxy/src/libraries/server.ts:799 | a character encodes as one to four bytes, and as the single byte of its code exactly when it is ASCII |
| Url.PercentBytes | backend/m3u8proxy/src/libraries/server.ts:799 | every byte becomes three characters "%XY" |
| Url.EncodeURIComponentChars | backend/m3u8proxy/src/libraries/server.ts:799 | `encodeURIComponent` leaves only unreserved characters, '%' and hex digits, so no '&', '=', '#', '+' or '?' |
| Url.FormDecodeEncode | backend/m3u8proxy/src/libraries/server.ts:799 | form-decoding an encoded ASCII text gives back the text |
| Url.FirstParam | backend/m3u8proxy/src/libraries/server.ts:407 | `searchParams.get` gives the value of the first pair with the name, and nothing exactly when no pair has it |
| Url.FirstParamRoundTrip | backend/m3u8proxy/src/libraries/server.ts:799 | a rewritten URL `...?url=<encoded>&...` gives the original ASCII URL back to `searchParams.get("url")` |
| Text.IndexOf | src/pages/anime/sources.jsx:52-59 | `indexOf` finds a pattern exactly when it occurs, and the index found is its first occurrence |
| Text.LastIndexOfChar | src/components/anime/animeData.jsx:444 | `lastIndexOf` finds the last occurrence of a character, or none when it does not occur |
| Text.JoinSplit | src/pages/embeds/primenet.jsx:107 | joining the pieces of a split with the separator gives back the string |
| Text.SplitPieces | src/pages/embeds/primenet.jsx:107 | no piece of a split holds the separator |
| Text.SplitJoin | src/pages/embeds/primenet.jsx:107 | splitting a join of separator-free pieces gives back the pieces |
| Text.SplitLast | src/components/anime/animeData.jsx:444 | `split(c).pop()` of a string ending in `c` and a separator-free piece is that piece |
| Text.SplitLength | src/pages/embeds/primenet.jsx:107 | a split has one piece more than there are separators |
| Text.TrimStartProps | src/components/player/ui/settings.js:79 | trimming the start removes a blank prefix and stops at the first other character |
| Text.TrimEndProps | src/components/player/ui/settings.js:79 | trimming the end removes a blank suffix and stops at the last other character |
| Text.TrimProps | src/components/player/ui/settings.js:79 | a trimmed string neither starts nor ends with white space, and is empty exactly when the string is blank |
| Text.ReplaceFirstAt | src/pages/anime/sources.jsx:52-59 | a string-pattern `replace` replaces the leftmost occurrence only |
| Text.ReplaceFirstNone | src/pages/anime/sources.jsx:52-59 | without an occurrence `replace` changes nothing |
| Text.ReplaceChar | src/components/player/helpers.jsx:305 | every occurrence of one separator becomes the other and nothing else changes, so `split(/[,.]/)` is one split on the other separator |
| Text.ToLower | src/components/anime/animeData.jsx:372 | `toLowerCase` lowers each character in place |
| Numbers.NatToString | src/components/player/helpers.jsx:7 | a number prints as a non-empty digit run without leading zeros |
| Numbers.DecValueNatToString | src/components/player/helpers.jsx:7 | the digits of a printed number are worth that number |
| Numbers.NatToStringInjective | src/pages/browse/Home.jsx:224 | two numbers print the same only when they are equal |
| Numbers.JsRem | src/components/player/helpers.jsx:4 | JavaScript's `%` keeps the sign of the dividend |
| Numbers.Pad2Value | src/components/player/helpers.jsx:7 | a value below 100 padded to two digits reads back as itself |
| Numbers.ParseDecimal | src/components/player/ui/settings.js:111 | `parseInt(s, 10)` is NaN exactly when no digit follows the blanks and the sign |
| Numbers.ParseNatToString | src/components/anime/animeData.jsx:46 | printing a number and reading it back with either `parseInt` gives the number |
| Numbers.ParseDecimalPrefix | src/components/anime/animeData.jsx:46 | a text starting with digits reads as the value of that digit run, whatever follows |
| Numbers.ParseSecondsToMsOfFixed | src/components/player/ui/settings.js:113 | "s.mmm" reads back as its value in milliseconds |
| Numbers.ParseSecondsToMsOfFraction | src/components/player/ui/settings.js:113 | digits, '.', and at most three fraction digits read as whole seconds plus the scaled fraction |
| Numbers.ParseSecondsToMsWhole | src/components/player/ui/settings.js:113 | digits alone read as whole seconds |

## Left out

- Network requests (`fetch`, axios, sockets and stream piping), browser storage, `console` logging, timers (`setTimeout`, `setInterval`) and React rendering are not modelled. The result of each request is a parameter, often a `Result` for a request that throws. Stored lists are fields, and the current time is a parameter.
- React state updates are applied at once. The model does not capture batching or stale closures.
- The cheerio and DOMParser scraping is a parameter: the model receives the attributes and texts the selectors would find.
- Floating point is not modelled:
  - times are whole milliseconds, and `parseFloat` is read to three fraction digits;
  - the frame rate of a variant is dropped;
  - `toFixed(1)` of a bandwidth in Mbps is computed as exact half-up rounding, which can differ from the binary double at a rounding boundary;
  - `Math.round` of a percentage is computed on integers.
- Regular expressions are modelled only where the code uses them, each as its own function. There is no general regular-expression engine. The patterns modelled are:
  - the cue timing-line pattern and `split(/[,.]/)` of the subtitle converters;
  - `/season-(\d+)/` and the slug chain of `formatTitle`;
  - the `RESOLUTION` and `BANDWIDTH` attributes of a playlist's variant lines;
  - `(\d+)[pP]` of the PrimeBox quality names;
  - `/\d+p/` and `/\d+/` of the preview video's quality filter and sort;
  - in the proxy server: the rate-limit setting `/^(\d+) (\d+)(?:\s*$|\s+(.+)$)/`, `split(/\s+/)` of its host list, the escape `/[$()*+.?[\\\]^{|}]/g`, the scheme strip `/^[\w\-]+:\/\//i`, and the key-line URL pattern `https?:\/\/[^"\s]+`.
- The proxy server's request-URL parser (`/^(?:(https?:)?\/\/)?…/i` in `parseURL`) and its `^https?:` request tests belong to the request handler, which is not modelled.
- The `$` patterns in the replacement strings of `replace` are not interpreted. None of the values the code passes holds a `$` that would trigger one.
- `toLowerCase` lowers ASCII letters only. `encodeURIComponent` encodes characters as UTF-8 but does not model lone surrogates, on which the source throws.
- URL resolution (`new URL(ref, base)` and `url.resolve`) follows section 5.2 of RFC 3986 without removing dot segments and without percent-encoding the path. `new URLSearchParams` decodes only ASCII escapes.
- Url.Resolve, Url.Href, Url.Hostname, Url.Origin: the WHATWG URL serialisation is not modelled beyond the split into parts:
  - the host keeps its case in `Href` (only `Hostname` and `Origin` lower-case it);
  - a default port such as `:443` is kept in `Href` and `Origin`;
  - an absolute reference is returned as cleaned text, not parsed and re-serialised, so `HTTPS://A.COM` is not turned into `https://a.com/`, and an invalid absolute reference does not throw;
  - `\` is not read as `/` for special schemes;
  - `Hostname` cuts a bracketed IPv6 host at its first ':'.
- Which regular-expression sources compile is a parameter (`compiles`) of ProxyServer.HostError, ProxyServer.UnlimitedParts and ProxyServer.CreateRateLimitChecker. The engine's explanation after "Invalid regular expression: /…/" is not modelled.
- PrimeBox.VideoProxyUrlRoundTrip: the encoded referer is a constant string, not `encodeURIComponent` applied to a literal.
- The Netlify function and the proxy server compare header names exactly. The case-insensitivity of Node's `setHeader` and `removeHeader` is not modelled. Object key order is insertion order, as in JavaScript for non-numeric keys.
- The proxy server's `proxyTs`, `proxyVideo`, `proxyGeneral`, `proxyRequest` and `createServer` only pipe streams and sockets, so they are not modelled. `proxyM3U8` is modelled only for its line rewrite.
- Configuration values such as the proxy base URL, the TMDB image base and the web server URL are parameters.
- The spotlight-fetching half of the anime home page's `loadInitialData` is not modelled. Its tab guard and endpoint table are.
- The subtitle parser behind `window.Subtitle.parse` in the player's settings menu (src/components/player/ui/settings.js:61-65) is a parameter: SettingsMenu.SubtitleMenu.StartSubtitleDisplay and SettingsMenu.SubtitleMenu.SelectSubtitle receive the cues it returns as `parsed`.
- The `searchSubtitles` call of the wyzie-lib library on the PrimeNet, PrimeBox and XPrime pages is a request like the others: the subtitle list it returns is a parameter. The PrimeNet page's own SRT-to-WebVTT conversion is modelled.
- AnimeCache.FetchAnimeData and AnimeCache.FetchAnimeInfo: the source calls `Date.now()` separately for the lookup, the stored timestamp and the eviction. The model uses one `now` for the whole call.
- ProgressTracking.HasStartedWatching: only states that a positive answer needs a matching record. The full rule, that the first matching record has a positive watched duration, is its body.
- Json.EscapeChar: only states that the escape is non-empty. Json.UnescapeEscape is its partner: unescaping inverts it.
- ProxyServer.EscapeRegExp: only states that escaping does not shorten the text. What the escaped pattern matches is not modelled, because there is no regular-expression engine.
- ProxyServer.StripScheme: only states that the host is no longer than the origin.
- ProxyServer.UnlimitedSource: only states the `^(?:` and `)$` anchors of the pattern built from the host list.

## Findings

| source | as written | input that shows it | evidently intended | confidence | as-written member | corrected member |
|---|---|---|---|---|---|---|
| src/pages/embeds/zenime.jsx:193-215 | a line that holds "-->" but fails the two-digit-hour timing pattern leaves `i` unchanged, so `parseVTT` loops forever | a WebVTT file with the short cue timing "00:01.000 --> 00:02.000" | skip the line, as the `else` branch does for other lines | not executed | ZenimeEmbed.AsWrittenStalls | ZenimeEmbed.ParseVTT |
