/** The Zenime embed page: the headers and the proxy URL for an HLS stream, and the
    WebVTT reader `parseVTT` that turns subtitle text into cues. */
module ZenimeEmbed {

  import opened Wrappers
  import opened Text
  import opened Url
  import opened Json
  import opened CueTiming

  // ---- createProxyHeaders / createProxyUrl ----

  /** `createProxyHeaders(url)`: no headers for an empty or unparseable URL, otherwise an
      Origin of `protocol//hostname` and a Referer of that origin followed by '/'. */
  function CreateProxyHeaders(url: string): (h: seq<(string, string)>)
    ensures url == "" || Parse(url).None? ==> h == []
    ensures url != "" && Parse(url).Some? ==>
      var origin := Protocol(Parse(url).value) + "//" + Hostname(Parse(url).value);
      h == [("Origin", origin), ("Referer", origin + "/")]
  {
    if url == "" then []
    else match Parse(url)
      case None => []
      case Some(u) =>
        var origin := Protocol(u) + "//" + Hostname(u);
        [("Origin", origin), ("Referer", origin + "/")]
  }

  /** `createProxyUrl(url, headers)` with `proxyUrl` the configured proxy address. */
  function CreateProxyUrl(proxyUrl: string, url: string, headers: seq<(string, string)>): string {
    if url == "" then ""
    else ProxyAddress(proxyUrl, EncodeURIComponent(url), EncodeURIComponent(Stringify(headers)))
  }

  function ProxyAddress(proxyUrl: string, encodedUrl: string, encodedHeaders: string): string {
    proxyUrl + "/m3u8-proxy?url=" + encodedUrl + "&headers=" + encodedHeaders
  }

  /** An empty URL gives an empty proxy URL; otherwise the proxy reads the stream URL back
      from the `url` parameter (for an ASCII URL and a proxy address without '?'). */
  lemma {:induction false} CreateProxyUrlRoundTrip(proxyUrl: string, url: string, headers: seq<(string, string)>)
    requires forall i :: 0 <= i < |proxyUrl| ==> proxyUrl[i] != '?'
    requires forall i :: 0 <= i < |url| ==> url[i] as int < 0x80
    ensures url == "" ==> CreateProxyUrl(proxyUrl, url, headers) == ""
    ensures url != "" ==>
      StartsWith(CreateProxyUrl(proxyUrl, url, headers), proxyUrl + "/m3u8-proxy?url=") &&
      GetParam(QueryOf(CreateProxyUrl(proxyUrl, url, headers)), "url") == Some(url)
  {
    if url != "" {
      var prefix := proxyUrl + "/m3u8-proxy";
      var h := EncodeURIComponent(Stringify(headers));
      NoQuestionMark(proxyUrl, "/m3u8-proxy");
      ProxyAddressShape(proxyUrl, EncodeURIComponent(url), h);
      FirstParamRoundTrip(prefix, url, "headers=" + h);
    }
  }

  lemma {:induction false} ProxyAddressShape(proxyUrl: string, e: string, h: string)
    ensures ProxyAddress(proxyUrl, e, h) == (proxyUrl + "/m3u8-proxy") + "?url=" + e + "&" + ("headers=" + h)
    ensures StartsWith(ProxyAddress(proxyUrl, e, h), proxyUrl + "/m3u8-proxy?url=")
  {
    var s := ProxyAddress(proxyUrl, e, h);
    assert s == (proxyUrl + "/m3u8-proxy?url=") + (e + "&headers=" + h);
  }

  lemma {:induction false} NoQuestionMark(a: string, b: string)
    requires forall i :: 0 <= i < |a| ==> a[i] != '?'
    requires forall i :: 0 <= i < |b| ==> b[i] != '?'
    ensures forall i :: 0 <= i < |a + b| ==> (a + b)[i] != '?'
  {
  }

  // ---- parseVTT ----

  /** One cue; the times are kept as the matched "HH:MM:SS.mmm" text. */
  datatype Cue = Cue(startTime: string, endTime: string, text: string)

  predicate HasArrow(s: string) { Contains(s, "-->") }

  /** The first line at or after `i` that holds "-->", or the end. */
  function FirstArrow(lines: seq<string>, i: nat): (j: nat)
    requires i <= |lines|
    ensures i <= j <= |lines|
    ensures j < |lines| ==> HasArrow(lines[j])
    decreases |lines| - i
  {
    if i == |lines| || HasArrow(lines[i]) then i else FirstArrow(lines, i + 1)
  }

  /** Where the text of a cue that starts at line `k` ends: the first blank line, the
      first line holding "-->", or the end. */
  function TextEnd(lines: seq<string>, k: nat): (j: nat)
    requires k <= |lines|
    ensures k <= j <= |lines|
    decreases |lines| - k
  {
    if k == |lines| || Trim(lines[k]) == "" || HasArrow(lines[k]) then k else TextEnd(lines, k + 1)
  }

  /** The text of a cue runs over non-blank lines without "-->" and stops before a blank
      line, a "-->" line or the end. */
  lemma {:induction false} TextEndProps(lines: seq<string>, k: nat)
    requires k <= |lines|
    ensures TextEnd(lines, k) < |lines| ==> Trim(lines[TextEnd(lines, k)]) == "" || HasArrow(lines[TextEnd(lines, k)])
    ensures forall m :: k <= m < TextEnd(lines, k) ==> Trim(lines[m]) != "" && !HasArrow(lines[m])
    decreases |lines| - k
  {
    if k < |lines| && Trim(lines[k]) != "" && !HasArrow(lines[k]) {
      TextEndProps(lines, k + 1);
    }
  }

  /** The text of the cue whose text lines are `a` to `b`, accumulated line by line:
      `if (text) text += '\n'; text += line.trim()`. */
  function CueText(lines: seq<string>, a: nat, b: nat): string
    requires a <= b <= |lines|
    decreases b - a
  {
    if b == a then ""
    else
      var t := CueText(lines, a, b - 1);
      (if t != "" then t + "\n" else "") + Trim(lines[b - 1])
  }

  function Trimmed(lines: seq<string>): (t: seq<string>)
    ensures |t| == |lines| && forall k :: 0 <= k < |lines| ==> t[k] == Trim(lines[k])
  {
    seq(|lines|, k requires 0 <= k < |lines| => Trim(lines[k]))
  }

  lemma {:induction false} TrimmedAppend(xs: seq<string>, x: string)
    ensures Trimmed(xs + [x]) == Trimmed(xs) + [Trim(x)]
  {
    var l, r := Trimmed(xs + [x]), Trimmed(xs) + [Trim(x)];
    forall k | 0 <= k < |l| ensures l[k] == r[k] {
      if k < |xs| { assert (xs + [x])[k] == xs[k]; }
    }
  }

  /** The text of a cue is its trimmed lines joined by "\n"; it is empty only when there
      are no text lines. */
  lemma {:induction false} CueTextJoin(lines: seq<string>, a: nat, b: nat)
    requires a <= b <= |lines|
    requires forall m :: a <= m < b ==> Trim(lines[m]) != ""
    ensures CueText(lines, a, b) == Join(Trimmed(lines[a..b]), "\n")
    ensures CueText(lines, a, b) == "" <==> a == b
    decreases b - a
  {
    if a < b {
      var before, last := lines[a..b - 1], lines[b - 1];
      CueTextJoin(lines, a, b - 1);
      assert lines[a..b] == before + [last];
      TrimmedAppend(before, last);
      if a < b - 1 {
        JoinAppend(Trimmed(before), Trim(last), "\n");
      } else {
        assert Trimmed(lines[a..b]) == [Trim(last)];
        assert Join([Trim(last)], "\n") == Trim(last);
      }
    }
  }

  /** The cues read from line `i` on, with a failed timing line skipped. */
  function CuesFrom(lines: seq<string>, i: nat): seq<Cue>
    requires i <= |lines|
    decreases |lines| - i
  {
    if i == |lines| then []
    else
      match Classify(Trim(lines[i]))
      case Timed(s, e) =>
        var b := CueBlock(lines, i + 1, s, e);
        b.1 + CuesFrom(lines, b.0)
      case _ => CuesFrom(lines, i + 1)
  }

  /** What the outer loop makes of a trimmed line: no "-->" in it, a "-->" that the timing
      pattern rejects, or the two times of a cue. */
  datatype LineKind = Plain | Unmatched | Timed(startTime: string, endTime: string)

  function Classify(line: string): (k: LineKind)
    ensures k.Plain? <==> !HasArrow(line)
    ensures k.Timed? ==> IsStamp(k.startTime, VttMark) && IsStamp(k.endTime, VttMark)
  {
    if !HasArrow(line) then Plain
    else match FindTiming(line, 0, VttMark)
      case None => Unmatched
      case Some(m) => Timed(m.0, m.1)
  }

  /** The text lines from `k` on, read as the body of a cue with the times `m`: the line
      that ends them, and the cue unless its text is empty. */
  function CueBlock(lines: seq<string>, k: nat, startTime: string, endTime: string): (b: (nat, seq<Cue>))
    requires k <= |lines|
    ensures k <= b.0 <= |lines| && |b.1| <= 1
  {
    var j := TextEnd(lines, k);
    var text := CueText(lines, k, j);
    (j, if text != "" then [Cue(startTime, endTime, text)] else [])
  }

  /** What `parseVTT(vttText)` returns, with the loop corrected to step over a "-->" line
      that does not match the timing pattern. */
  function VttCues(vttText: string): seq<Cue> {
    var lines := Split(vttText, '\n');
    CuesFrom(lines, FirstArrow(lines, 0))
  }

  /** `parseVTT`, corrected: it terminates on every input. */
  method ParseVTT(vttText: string) returns (cues: seq<Cue>)
    ensures cues == VttCues(vttText)
  {
    var lines := Split(vttText, '\n');
    var i := 0;
    while i < |lines| && !HasArrow(lines[i])
      invariant i <= |lines| && FirstArrow(lines, 0) == FirstArrow(lines, i)
    {
      i := i + 1;
    }
    cues := ReadCues(lines, i);
  }

  /** The outer loop of `parseVTT`, from the first "-->" line on. */
  method ReadCues(lines: seq<string>, start: nat) returns (cues: seq<Cue>)
    requires start <= |lines|
    ensures cues == CuesFrom(lines, start)
  {
    cues := [];
    var i := start;
    while i < |lines|
      invariant start <= i <= |lines|
      invariant CuesFrom(lines, start) == cues + CuesFrom(lines, i)
      decreases |lines| - i
    {
      ghost var before := cues;
      var next, found := ReadCueAt(lines, i);
      cues := cues + found;
      ghost var rest := CuesFrom(lines, next);
      assert before + (found + rest) == cues + rest;
      i := next;
    }
  }

  /** One turn of the outer loop, corrected: the line after the cue read at line `i` (or
      after line `i` itself) and that cue, if there is one with text. */
  method ReadCueAt(lines: seq<string>, i: nat) returns (next: nat, found: seq<Cue>)
    requires i < |lines|
    ensures i < next <= |lines| && CuesFrom(lines, i) == found + CuesFrom(lines, next)
  {
    var line := Trim(lines[i]);
    found := [];
    if HasArrow(line) {
      var timeMatch := FindTiming(line, 0, VttMark);
      if timeMatch.Some? {
        assert Classify(line) == Timed(timeMatch.value.0, timeMatch.value.1);
        var text;
        text, next := ReadCueText(lines, i + 1);
        if text != "" {
          found := [Cue(timeMatch.value.0, timeMatch.value.1, text)];
        }
        CueBlockRead(lines, i + 1, timeMatch.value.0, timeMatch.value.1, next, text);
      } else {
        assert Classify(line) == Unmatched;
        next := i + 1;
      }
    } else {
      assert Classify(line) == Plain;
      next := i + 1;
    }
  }

  lemma CueBlockRead(lines: seq<string>, k: nat, startTime: string, endTime: string, j: nat, text: string)
    requires k <= |lines| && j == TextEnd(lines, k) && text == CueText(lines, k, j)
    ensures CueBlock(lines, k, startTime, endTime) == (j, if text != "" then [Cue(startTime, endTime, text)] else [])
  {
  }

  /** The inner loop: the text lines of a cue, from line `k` up to the line that ends them. */
  method ReadCueText(lines: seq<string>, k: nat) returns (text: string, i: nat)
    requires k <= |lines|
    ensures i == TextEnd(lines, k) && text == CueText(lines, k, i)
  {
    i := k;
    text := "";
    while i < |lines| && Trim(lines[i]) != "" && !HasArrow(lines[i])
      invariant k <= i <= |lines|
      invariant TextEnd(lines, k) == TextEnd(lines, i)
      invariant text == CueText(lines, k, i)
      decreases |lines| - i
    {
      if text != "" {
        text := text + "\n";
      }
      text := text + Trim(lines[i]);
      i := i + 1;
    }
  }

  /** Every cue has non-empty text and two "HH:MM:SS.mmm" times. */
  lemma {:induction false} CuesWellFormed(lines: seq<string>, i: nat)
    requires i <= |lines|
    ensures forall c :: c in CuesFrom(lines, i) ==> c.text != "" && IsStamp(c.startTime, VttMark) && IsStamp(c.endTime, VttMark)
    decreases |lines| - i
  {
    if i < |lines| {
      var line := Trim(lines[i]);
      if Classify(line).Timed? {
        CuesWellFormed(lines, TextEnd(lines, i + 1));
      } else {
        CuesWellFormed(lines, i + 1);
      }
    }
  }

  /** The number of lines from `i` on that hold "-->". */
  function ArrowLines(lines: seq<string>, i: nat): nat
    requires i <= |lines|
    decreases |lines| - i
  {
    if i == |lines| then 0 else (if HasArrow(lines[i]) then 1 else 0) + ArrowLines(lines, i + 1)
  }

  lemma {:induction false} ArrowLinesSkip(lines: seq<string>, i: nat, j: nat)
    requires i <= j <= |lines|
    requires forall m :: i <= m < j ==> !HasArrow(lines[m])
    ensures ArrowLines(lines, i) == ArrowLines(lines, j)
    decreases j - i
  {
    if i < j { ArrowLinesSkip(lines, i + 1, j); }
  }

  /** White space trimmed off a line cannot hide "-->" in it. */
  lemma {:induction false} TrimArrow(s: string)
    requires HasArrow(Trim(s))
    ensures HasArrow(s)
  {
    var t := TrimStart(s);
    var r := TrimEnd(t);
    var k := |s| - |t|;
    TrimStartProps(s);
    TrimEndProps(t);
    assert t == s[k..];
    var p :| 0 <= p <= |r| && OccursAt(r, "-->", p);
    assert r == t[..|r|];
    assert s[k + p..k + p + 3] == r[p..p + 3];
    assert OccursAt(s, "-->", k + p);
  }

  /** There are never more cues than lines holding "-->". */
  lemma {:induction false} CuesBound(lines: seq<string>, i: nat)
    requires i <= |lines|
    ensures |CuesFrom(lines, i)| <= ArrowLines(lines, i)
    decreases |lines| - i
  {
    if i < |lines| {
      var line := Trim(lines[i]);
      if Classify(line).Timed? {
        var j := TextEnd(lines, i + 1);
        CuesBound(lines, j);
        TrimArrow(lines[i]);
        TextEndProps(lines, i + 1);
        ArrowLinesSkip(lines, i + 1, j);
      } else {
        CuesBound(lines, i + 1);
      }
    }
  }

  // ---- the loop as written ----

  /** One turn of the outer loop as written: the next line index and the cues so far.
      On a "-->" line that the timing pattern rejects, the index is not advanced. */
  function StepAsWritten(lines: seq<string>, i: nat, cues: seq<Cue>): (nat, seq<Cue>)
    requires i < |lines|
  {
    match Classify(Trim(lines[i]))
    case Plain => (i + 1, cues)
    case Unmatched => (i, cues)
    case Timed(s, e) =>
      var b := CueBlock(lines, i + 1, s, e);
      (b.0, cues + b.1)
  }

  /** A "-->" line without two full "HH:MM:SS.mmm" times is a fixed point of the loop as
      written: the loop never ends. */
  lemma {:induction false} AsWrittenStalls(lines: seq<string>, i: nat, cues: seq<Cue>)
    requires i < |lines| && HasArrow(Trim(lines[i]))
    requires forall p :: TimingAt(Trim(lines[i]), p, VttMark).None?
    ensures StepAsWritten(lines, i, cues) == (i, cues)
  {
    FindTimingLeftmost(Trim(lines[i]), 0, VttMark);
  }

  /** Every other turn of the loop as written advances the index, as the corrected loop does. */
  lemma {:induction false} AsWrittenAdvances(lines: seq<string>, i: nat, cues: seq<Cue>)
    requires i < |lines|
    requires !HasArrow(Trim(lines[i])) || FindTiming(Trim(lines[i]), 0, VttMark).Some?
    ensures StepAsWritten(lines, i, cues).0 > i
    ensures cues + CuesFrom(lines, i) == StepAsWritten(lines, i, cues).1 + CuesFrom(lines, StepAsWritten(lines, i, cues).0)
  {
    if HasArrow(Trim(lines[i])) {
      AsWrittenReadsCue(lines, i, cues);
    }
  }

  lemma {:induction false} AsWrittenReadsCue(lines: seq<string>, i: nat, cues: seq<Cue>)
    requires i < |lines|
    requires Classify(Trim(lines[i])).Timed?
    ensures StepAsWritten(lines, i, cues).0 > i
    ensures cues + CuesFrom(lines, i) == StepAsWritten(lines, i, cues).1 + CuesFrom(lines, StepAsWritten(lines, i, cues).0)
  {
    var k := Classify(Trim(lines[i]));
    var b := CueBlock(lines, i + 1, k.startTime, k.endTime);
    assert CuesFrom(lines, i) == b.1 + CuesFrom(lines, b.0);
    assert StepAsWritten(lines, i, cues) == (b.0, cues + b.1);
    assert cues + (b.1 + CuesFrom(lines, b.0)) == (cues + b.1) + CuesFrom(lines, b.0);
  }

  /** A cue with the short WebVTT timestamp form "MM:SS.mmm" is such a line. */
  lemma {:induction false} ShortTimestampStalls()
    ensures HasArrow("00:01.000 --> 00:02.000")
    ensures forall p :: TimingAt("00:01.000 --> 00:02.000", p, VttMark).None?
  {
    var s := "00:01.000 --> 00:02.000";
    assert OccursAt(s, "-->", 10);
    forall p | true ensures TimingAt(s, p, VttMark).None? {
      assert !StampAt(s, p, VttMark);
    }
  }
}
