/** The copy of `parseM3U8ForQualities` kept by the Zenime embed page.  Its loop is the
    same as the player's, and it is proved against the same specification. */
module ZenimePlaylist {

  import opened Wrappers
  import opened Text
  import opened HlsQualities

  /** `parseM3U8ForQualities` of the embed page; None when the URL constructor throws. */
  method ParseM3U8ForQualities(m3u8Content: string, sourceUrl: string) returns (r: Option<seq<QualityOption>>)
    ensures r == Qualities(m3u8Content, sourceUrl)
  {
    var qualityOptions: seq<QualityOption> := [];
    var lines := Split(m3u8Content, '\n');
    for i := 0 to |lines|
      invariant VariantsUpTo(lines, i, sourceUrl) == Some(qualityOptions)
    {
      if StartsWith(lines[i], StreamInfTag) {
        if i + 1 < |lines| && lines[i + 1] != "" && !StartsWith(lines[i + 1], "#") {
          var v := VariantOf(lines[i], lines[i + 1], sourceUrl);
          if v.None? {
            ThrownStays(lines, i + 1, |lines|, sourceUrl);
            return None;
          }
          qualityOptions := qualityOptions + [v.value];
        }
      }
    }
    if |qualityOptions| > 0 {
      qualityOptions := [QualityOption(sourceUrl, "Auto")] + qualityOptions;
    }
    return Some(qualityOptions);
  }
}
