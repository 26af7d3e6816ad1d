/** The PrimeNet embed page's subtitle track: choosing the subtitle text, converting the
    SubRip cues to a WebVTT document, and the one track the page keeps on the video. */
module PrimeNet {

  import opened Wrappers
  import opened Text
  import opened Numbers
  import opened CueTiming
  import opened SrtSubtitles

  // ---- where the subtitle text comes from ----

  /** A subtitle entry; a missing `url`, `content` or `language` is "". */
  datatype Subtitle = Subtitle(url: string, content: string, language: string)

  /** What `fetch(subtitle.url)` gives: a rejected request, or a response. */
  datatype Fetched = NetworkError(message: string) | Response(ok: bool, status: int, body: string)

  /** The subtitle text, or the message of the error thrown: an http URL is fetched, else
      the inline content is used, else a non-http URL is taken as the text itself. */
  function SubtitleText(subtitle: Subtitle, fetched: Fetched): Result<string, string> {
    if subtitle.url != "" && StartsWith(subtitle.url, "http") then
      match fetched
      case NetworkError(m) => Err(m)
      case Response(ok, status, body) =>
        if !ok then Err("Failed to fetch subtitle: " + IntToString(status)) else Ok(body)
    else if subtitle.content != "" then Ok(subtitle.content)
    else if subtitle.url != "" then Ok(subtitle.url)
    else Err("No subtitle content or URL available")
  }

  /** The text is fetched only for an http URL; otherwise it is the content or, failing
      that, the URL itself, and it is missing only when both are empty. */
  lemma SubtitleTextSources(subtitle: Subtitle, fetched: Fetched)
    ensures !StartsWith(subtitle.url, "http") ==>
      (SubtitleText(subtitle, fetched).Err? <==> subtitle.content == "" && subtitle.url == "")
    ensures !StartsWith(subtitle.url, "http") && subtitle.content != "" ==>
      SubtitleText(subtitle, fetched) == Ok(subtitle.content)
    ensures !StartsWith(subtitle.url, "http") && subtitle.content == "" && subtitle.url != "" ==>
      SubtitleText(subtitle, fetched) == Ok(subtitle.url)
    ensures StartsWith(subtitle.url, "http") ==>
      (SubtitleText(subtitle, fetched).Ok? <==> fetched.Response? && fetched.ok)
  {
    if StartsWith(subtitle.url, "http") {
      assert subtitle.url != "";
    }
  }

  // ---- SubRip to WebVTT ----

  /** `time.replace(',', '.')`: the first ',' only. */
  function VttTime(t: string): string {
    ReplaceFirst(t, ",", ".")
  }

  /** The WebVTT block of the cue numbered `n`. */
  function VttBlock(n: nat, c: SrtCue): string {
    NatToString(n) + "\n" + Timing(VttTime(c.startTime), VttTime(c.endTime)) + "\n" + c.text + "\n\n"
  }

  /** The blocks of the cues, numbered from 1 in order. */
  function VttBlocks(cues: seq<SrtCue>): string {
    if |cues| == 0 then ""
    else VttBlocks(cues[..|cues| - 1]) + VttBlock(|cues|, cues[|cues| - 1])
  }

  function VttDocument(cues: seq<SrtCue>): string {
    "WEBVTT\n\n" + VttBlocks(cues)
  }

  /** The conversion loop of `loadSubtitleTrack`, appending to `vttContent`. */
  method SrtToVtt(parsedSrt: seq<SrtCue>) returns (vttContent: string)
    ensures vttContent == VttDocument(parsedSrt)
  {
    vttContent := "WEBVTT\n\n";
    for index := 0 to |parsedSrt|
      invariant vttContent == VttDocument(parsedSrt[..index])
    {
      var cue := parsedSrt[index];
      ghost var before := vttContent;
      var startTime := ReplaceFirst(cue.startTime, ",", ".");
      var endTime := ReplaceFirst(cue.endTime, ",", ".");
      vttContent := vttContent + NatToString(index + 1) + "\n";
      vttContent := vttContent + startTime + " --> " + endTime + "\n";
      vttContent := vttContent + cue.text + "\n\n";
      BlockAppend(before, NatToString(index + 1), startTime, endTime, cue.text);
      DocumentStep(parsedSrt, index);
    }
    assert parsedSrt[..|parsedSrt|] == parsedSrt;
  }

  /** One more cue adds its block at the end of the document. */
  lemma DocumentStep(cues: seq<SrtCue>, i: nat)
    requires i < |cues|
    ensures VttDocument(cues[..i + 1]) == VttDocument(cues[..i]) + VttBlock(i + 1, cues[i])
  {
    assert cues[..i + 1][..i] == cues[..i];
    assert VttBlocks(cues[..i + 1]) == VttBlocks(cues[..i]) + VttBlock(i + 1, cues[i]);
  }

  /** The three appends of one loop step add one block. */
  lemma BlockAppend(v: string, num: string, startTime: string, endTime: string, text: string)
    ensures v + num + "\n" + startTime + " --> " + endTime + "\n" + text + "\n\n" ==
            v + (num + "\n" + Timing(startTime, endTime) + "\n" + text + "\n\n")
  {
  }

  /** A SubRip time becomes a WebVTT time: the ',' before the milliseconds becomes '.', and
      nothing else changes. */
  lemma VttTimeStamp(t: string)
    requires IsStamp(t, SrtMark)
    ensures VttTime(t) == t[..8] + "." + t[9..]
    ensures IsStamp(VttTime(t), VttMark)
  {
    assert OccursAt(t, ",", 8);
    forall j | 0 <= j < 8 ensures !OccursAt(t, ",", j) {
      assert t[j..j + 1][0] == t[j];
    }
    ReplaceFirstAt(t, ",", ".", 8);
  }

  // ---- the track on the video ----

  /** A `<track>` element: kind "subtitles", default, with its label, language and the
      WebVTT document its object URL points at. */
  datatype Track = Track(labelText: string, srclang: string, src: string)

  /** The track built for a subtitle and a document. */
  function TrackFor(subtitle: Subtitle, vtt: string): (t: Track)
    ensures t.labelText == (if subtitle.language != "" then subtitle.language else "Unknown")
    ensures t.srclang == (if subtitle.language != "" then subtitle.language else "en")
    ensures t.src == vtt
  {
    Track(if subtitle.language != "" then subtitle.language else "Unknown",
          if subtitle.language != "" then subtitle.language else "en", vtt)
  }

  /** `parent.removeChild(t)`: the first child equal to `t` taken out. */
  function RemoveChild(children: seq<Track>, t: Track): (r: seq<Track>)
    ensures t in children ==> |r| == |children| - 1 && multiset(r) == multiset(children) - multiset{t}
    ensures t !in children ==> r == children
  {
    if |children| == 0 then []
    else if children[0] == t then
      assert children == [children[0]] + children[1..];
      children[1..]
    else
      assert children == [children[0]] + children[1..];
      [children[0]] + RemoveChild(children[1..], t)
  }

  /** The video element's tracks, the track the page last added (`trackRef.current`), and
      the error message shown to the viewer. */
  class SubtitleTrackSlot {
    var attached: seq<Track>
    var current: Option<Track>
    var error: string

    /** The recorded track is one of the video's tracks. */
    predicate Valid()
      reads this
    {
      current.Some? ==> current.value in attached
    }

    constructor()
      ensures Valid() && attached == [] && current == None && error == ""
    {
      attached := [];
      current := None;
      error := "";
    }

    /** `removeSubtitleTrack(videoRef)`: acts only when a track is recorded and the video
        exists, and then takes the track off the video and forgets it. */
    method RemoveSubtitleTrack(hasVideo: bool)
      requires Valid()
      modifies this
      ensures Valid() && error == old(error)
      ensures old(current).Some? && hasVideo ==>
        attached == RemoveChild(old(attached), old(current).value) && current == None
      ensures !(old(current).Some? && hasVideo) ==> attached == old(attached) && current == old(current)
    {
      if current.Some? && hasVideo {
        attached := RemoveChild(attached, current.value);
        current := None;
      }
    }

    /** `loadSubtitleTrack(subtitle, videoRef)`: without a video or a subtitle nothing
        happens; otherwise the old track goes, and either a track holding the converted
        cues is added and recorded, or the error is reported. */
    method LoadSubtitleTrack(hasVideo: bool, subtitle: Option<Subtitle>, fetched: Fetched)
      requires Valid()
      modifies this
      ensures Valid()
      ensures !hasVideo || subtitle.None? ==>
        attached == old(attached) && current == old(current) && error == old(error)
      ensures hasVideo && subtitle.Some? ==>
        var kept := if old(current).Some? then RemoveChild(old(attached), old(current).value) else old(attached);
        match SubtitleText(subtitle.value, fetched)
        case Ok(text) =>
          var t := TrackFor(subtitle.value, VttDocument(SrtCues(text)));
          attached == kept + [t] && current == Some(t) && error == old(error)
        case Err(e) =>
          attached == kept && current == (if old(current).Some? then None else old(current)) &&
          error == "Failed to load subtitles: " + e
    {
      if !hasVideo || subtitle.None? {
        return;
      }
      RemoveSubtitleTrack(hasVideo);
      var source := SubtitleText(subtitle.value, fetched);
      if source.Err? {
        error := "Failed to load subtitles: " + source.error;
        return;
      }
      var parsedSrt := ParseSRT(source.value);
      var vttContent := SrtToVtt(parsedSrt);
      var track := TrackFor(subtitle.value, vttContent);
      attached := attached + [track];
      current := Some(track);
    }
  }
}
