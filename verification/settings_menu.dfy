/** The settings menu of the custom player: quality labels, the fallback subtitle reader
    (SubRip or WebVTT text into cues with times in milliseconds), the subtitle shown at a
    playback time, and the menu's subtitle state. */
module SettingsMenu {

  import opened Wrappers
  import opened Text
  import opened Numbers

  // ---- formatQualityOption ----

  /** `optionName.replace('SubsPlease', 'SubsPls').replace('Bunny-Apocalypse', 'Bunny')`. */
  function FormatQualityOption(optionName: string): string {
    ReplaceFirst(ReplaceFirst(optionName, "SubsPlease", "SubsPls"), "Bunny-Apocalypse", "Bunny")
  }

  /** A name mentioning neither release group is shown as it is; otherwise the first
      "SubsPlease" is shortened, then the first "Bunny-Apocalypse" of that result. */
  lemma FormatQualityOptionProps(optionName: string, i: nat, j: nat)
    ensures !Contains(optionName, "SubsPlease") && !Contains(optionName, "Bunny-Apocalypse") ==>
      FormatQualityOption(optionName) == optionName
    ensures OccursAt(optionName, "SubsPlease", i) && (forall k :: 0 <= k < i ==> !OccursAt(optionName, "SubsPlease", k)) &&
            !Contains(optionName[..i] + "SubsPls" + optionName[i + 10..], "Bunny-Apocalypse") ==>
      FormatQualityOption(optionName) == optionName[..i] + "SubsPls" + optionName[i + 10..]
    ensures !Contains(optionName, "SubsPlease") &&
            OccursAt(optionName, "Bunny-Apocalypse", j) && (forall k :: 0 <= k < j ==> !OccursAt(optionName, "Bunny-Apocalypse", k)) ==>
      FormatQualityOption(optionName) == optionName[..j] + "Bunny" + optionName[j + 16..]
  {
    if !Contains(optionName, "SubsPlease") {
      WithoutSubsPlease(optionName, j);
    }
    if OccursAt(optionName, "SubsPlease", i) && (forall k :: 0 <= k < i ==> !OccursAt(optionName, "SubsPlease", k)) {
      WithSubsPlease(optionName, i);
    }
  }

  lemma WithSubsPlease(optionName: string, i: nat)
    requires OccursAt(optionName, "SubsPlease", i) && forall k :: 0 <= k < i ==> !OccursAt(optionName, "SubsPlease", k)
    ensures !Contains(optionName[..i] + "SubsPls" + optionName[i + 10..], "Bunny-Apocalypse") ==>
      FormatQualityOption(optionName) == optionName[..i] + "SubsPls" + optionName[i + 10..]
  {
    ReplaceFirstAt(optionName, "SubsPlease", "SubsPls", i);
    var once := optionName[..i] + "SubsPls" + optionName[i + 10..];
    if !Contains(once, "Bunny-Apocalypse") {
      ReplaceFirstNone(once, "Bunny-Apocalypse", "Bunny");
    }
  }

  lemma WithoutSubsPlease(optionName: string, j: nat)
    requires !Contains(optionName, "SubsPlease")
    ensures !Contains(optionName, "Bunny-Apocalypse") ==> FormatQualityOption(optionName) == optionName
    ensures OccursAt(optionName, "Bunny-Apocalypse", j) && (forall k :: 0 <= k < j ==> !OccursAt(optionName, "Bunny-Apocalypse", k)) ==>
      FormatQualityOption(optionName) == optionName[..j] + "Bunny" + optionName[j + 16..]
  {
    ReplaceFirstNone(optionName, "SubsPlease", "SubsPls");
    if !Contains(optionName, "Bunny-Apocalypse") {
      ReplaceFirstNone(optionName, "Bunny-Apocalypse", "Bunny");
    }
    if OccursAt(optionName, "Bunny-Apocalypse", j) && (forall k :: 0 <= k < j ==> !OccursAt(optionName, "Bunny-Apocalypse", k)) {
      ReplaceFirstAt(optionName, "Bunny-Apocalypse", "Bunny", j);
    }
  }

  // ---- parseTimeToMs ----

  /** `parseTimeToMs(timeString)`: the first ',' becomes '.', anything from the first
      space on is dropped, and "h:m:s" or "m:s" is read with `parseInt` for the whole
      fields and `parseFloat` for the seconds; None is `NaN`. */
  function ParseTimeToMs(timeString: string): Option<int> {
    FieldsToMs(TimeFields(timeString))
  }

  /** The ':' fields of the first word, after the first ',' became '.'. */
  function TimeFields(timeString: string): seq<string> {
    Split(Split(ReplaceFirst(timeString, ",", "."), ' ')[0], ':')
  }

  function FieldsToMs(parts: seq<string>): Option<int> {
    if |parts| == 3 then
      var h, m, s := ParseDecimal(parts[0]), ParseDecimal(parts[1]), ParseSecondsToMs(parts[2]);
      if h.None? || m.None? || s.None? then None else Some((h.value * 3600 + m.value * 60) * 1000 + s.value)
    else if |parts| == 2 then
      var m, s := ParseDecimal(parts[0]), ParseSecondsToMs(parts[1]);
      if m.None? || s.None? then None else Some(m.value * 60 * 1000 + s.value)
    else None
  }

  /** A subtitle timestamp "HH:MM:SS<mark>mmm". */
  function Stamp(h: nat, m: nat, s: nat, ms: nat, mark: char): string
    requires h < 100 && m < 100 && s < 100 && ms < 1000
  {
    Pad2(h) + ":" + Pad2(m) + ":" + Pad2(s) + [mark] + Pad3(ms)
  }

  /** A short timestamp "MM:SS.mmm". */
  function ShortStamp(m: nat, s: nat, ms: nat): string
    requires m < 100 && s < 100 && ms < 1000
  {
    Pad2(m) + ":" + Pad2(s) + "." + Pad3(ms)
  }

  lemma NoCharNoOccurrence(s: string, c: char)
    requires forall i :: 0 <= i < |s| ==> s[i] != c
    ensures !Contains(s, [c])
  {
    IndexOfCharNone(s, c);
  }

  /** Both marks read the same: ',' is turned into '.' first. */
  lemma StampMark(h: nat, m: nat, s: nat, ms: nat, mark: char, tail: string)
    requires h < 100 && m < 100 && s < 100 && ms < 1000
    requires mark == '.' || mark == ','
    requires ',' !in tail
    ensures ReplaceFirst(Stamp(h, m, s, ms, mark) + tail, ",", ".") == Stamp(h, m, s, ms, '.') + tail
  {
    var pre := Pad2(h) + ":" + Pad2(m) + ":" + Pad2(s);
    var post := Pad3(ms) + tail;
    DigitsExclude(Pad2(h), ',');
    DigitsExclude(Pad2(m), ',');
    DigitsExclude(Pad2(s), ',');
    DigitsExclude(Pad3(ms), ',');
    assert ',' !in pre && ',' !in post;
    assert Stamp(h, m, s, ms, mark) + tail == pre + [mark] + post;
    assert Stamp(h, m, s, ms, '.') + tail == pre + ['.'] + post;
    if mark == ',' {
      ReplaceCommaAt(pre, post);
    } else {
      ReplaceCommaNone(pre + ['.'] + post);
    }
  }

  /** The first ',' becomes '.'. */
  lemma ReplaceCommaAt(pre: string, post: string)
    requires ',' !in pre
    ensures ReplaceFirst(pre + [','] + post, ",", ".") == pre + ['.'] + post
  {
    var x := pre + [','] + post;
    assert forall j :: 0 <= j < |pre| ==> x[j] != ',' by {
      forall j | 0 <= j < |pre| ensures x[j] != ',' { assert x[j] == pre[j]; }
    }
    IndexOfCharAt(x, ',', |pre|);
    assert x[..|pre|] == pre && x[|pre| + 1..] == post;
  }

  /** Without a ',' nothing changes. */
  lemma ReplaceCommaNone(x: string)
    requires ',' !in x
    ensures ReplaceFirst(x, ",", ".") == x
  {
    NoCharNoOccurrence(x, ',');
    ReplaceFirstNone(x, ",", ".");
  }

  /** Dropping everything from the first space keeps a text without spaces. */
  lemma {:induction false} FirstWord(x: string, tail: string)
    requires ' ' !in x
    requires tail == "" || tail[0] == ' '
    ensures Split(x + tail, ' ')[0] == x
  {
    if tail == "" {
      assert x + tail == x;
      SplitNoSep(x, ' ');
    } else {
      assert x + tail == x + [' '] + tail[1..];
      SplitAppendSep(x, tail[1..], ' ');
    }
  }

  /** A clock time; `ValidClock` is what a two-digit-hour timestamp can show. */
  datatype Clock = Clock(h: nat, m: nat, s: nat, ms: nat)

  predicate ValidClock(c: Clock) { c.h < 100 && c.m < 60 && c.s < 60 && c.ms < 1000 }

  function ClockMs(c: Clock): int { (c.h * 3600 + c.m * 60 + c.s) * 1000 + c.ms }

  function ClockText(c: Clock, mark: char): string
    requires ValidClock(c)
  {
    Stamp(c.h, c.m, c.s, c.ms, mark)
  }

  /** A timestamp of either mark, optionally followed by cue settings after a space,
      reads as its value in milliseconds. */
  lemma {:induction false} ParseStamp(c: Clock, mark: char, tail: string, x: string)
    requires ValidClock(c)
    requires mark == '.' || mark == ','
    requires forall i :: 0 <= i < |tail| ==> tail[i] != ','
    requires tail == "" || tail[0] == ' '
    requires x == ClockText(c, mark) + tail
    ensures ParseTimeToMs(x) == Some(ClockMs(c))
  {
    StampFields(c.h, c.m, c.s, c.ms, mark, tail);
    Pad2Value(c.h);
    Pad2Value(c.m);
    Pad2Value(c.s);
    Pad3Value(c.ms);
    ReadClock(x, Pad2(c.h), Pad2(c.m), Pad2(c.s), Pad3(c.ms), c);
  }

  /** Fields "H", "M" and "S.mmm" of digits read as the clock they write. */
  lemma ReadClock(x: string, a: string, b: string, w: string, p: string, c: Clock)
    requires TimeFields(x) == [a, b, w + "." + p]
    requires |a| > 0 && AllDigits(a) && DecValue(a) == c.h
    requires |b| > 0 && AllDigits(b) && DecValue(b) == c.m
    requires |w| > 0 && AllDigits(w) && DecValue(w) == c.s
    requires |p| == 3 && AllDigits(p) && DecValue(p) == c.ms
    ensures ParseTimeToMs(x) == Some(ClockMs(c))
  {
    ParseSecondsToMsOfDigits(w, p, c.s, c.ms);
    ClockFields(a, b, w + "." + p, c);
    FieldsValue(x, [a, b, w + "." + p], ClockMs(c));
  }

  lemma ClockFields(a: string, b: string, last: string, c: Clock)
    requires |a| > 0 && AllDigits(a) && DecValue(a) == c.h
    requires |b| > 0 && AllDigits(b) && DecValue(b) == c.m
    requires ParseSecondsToMs(last) == Some(c.s * 1000 + c.ms)
    ensures FieldsToMs([a, b, last]) == Some(ClockMs(c))
  {
    ParseIntDigits(a);
    ParseIntDigits(b);
    ThreeFields(a, b, last, c);
  }

  lemma FieldsValue(x: string, fields: seq<string>, v: int)
    requires TimeFields(x) == fields && FieldsToMs(fields) == Some(v)
    ensures ParseTimeToMs(x) == Some(v)
  {
  }

  lemma ThreeFields(a: string, b: string, last: string, c: Clock)
    requires ParseDecimal(a) == Some(c.h) && ParseDecimal(b) == Some(c.m) && ParseSecondsToMs(last) == Some(c.s * 1000 + c.ms)
    ensures FieldsToMs([a, b, last]) == Some(ClockMs(c))
  {
    assert (c.h * 3600 + c.m * 60) * 1000 + (c.s * 1000 + c.ms) == ClockMs(c);
  }

  lemma StampFields(h: nat, m: nat, s: nat, ms: nat, mark: char, tail: string)
    requires h < 100 && m < 100 && s < 100 && ms < 1000
    requires mark == '.' || mark == ','
    requires forall i :: 0 <= i < |tail| ==> tail[i] != ','
    requires tail == "" || tail[0] == ' '
    ensures TimeFields(Stamp(h, m, s, ms, mark) + tail) == [Pad2(h), Pad2(m), Pad2(s) + "." + Pad3(ms)]
  {
    StampMark(h, m, s, ms, mark, tail);
    var a, b, c, p := Pad2(h), Pad2(m), Pad2(s), Pad3(ms);
    DigitsExclude(a, ' ');
    DigitsExclude(b, ' ');
    DigitsExclude(c, ' ');
    DigitsExclude(p, ' ');
    DigitsExclude(a, ':');
    DigitsExclude(b, ':');
    DigitsExclude(c, ':');
    DigitsExclude(p, ':');
    assert Stamp(h, m, s, ms, '.') == a + [':'] + b + [':'] + (c + "." + p);
    WordFields(a, b, c + "." + p, tail);
  }

  /** "A:B:C" followed by nothing or by a space: the ':' fields of its first word. */
  lemma WordFields(a: string, b: string, last: string, tail: string)
    requires ' ' !in a && ' ' !in b && ' ' !in last
    requires ':' !in a && ':' !in b && ':' !in last
    requires tail == "" || tail[0] == ' '
    ensures Split(Split(a + [':'] + b + [':'] + last + tail, ' ')[0], ':') == [a, b, last]
  {
    var x := a + [':'] + b + [':'] + last;
    assert ' ' !in x;
    FirstWord(x, tail);
    SplitThree(a, b, last, ':');
  }

  /** A short "MM:SS.mmm" timestamp reads as minutes and seconds; a text without ':'
      is `NaN`. */
  lemma {:induction false} ParseShortStamp(m: nat, s: nat, ms: nat)
    requires m < 100 && s < 60 && ms < 1000
    ensures ParseTimeToMs(ShortStamp(m, s, ms)) == Some(ClockMs(Clock(0, m, s, ms)))
  {
    var x := ShortStamp(m, s, ms);
    ShortStampFields(m, s, ms, x);
    Pad2Value(m);
    Pad2Value(s);
    Pad3Value(ms);
    ReadShort(x, Pad2(m), Pad2(s), Pad3(ms), Clock(0, m, s, ms));
  }

  /** Fields "M" and "S.mmm" of digits read as minutes and seconds. */
  lemma ReadShort(x: string, b: string, w: string, p: string, c: Clock)
    requires TimeFields(x) == [b, w + "." + p]
    requires |b| > 0 && AllDigits(b) && DecValue(b) == c.m && c.h == 0
    requires |w| > 0 && AllDigits(w) && DecValue(w) == c.s
    requires |p| == 3 && AllDigits(p) && DecValue(p) == c.ms
    ensures ParseTimeToMs(x) == Some(ClockMs(c))
  {
    ParseSecondsToMsOfDigits(w, p, c.s, c.ms);
    ShortFields(b, w + "." + p, c);
    FieldsValue(x, [b, w + "." + p], ClockMs(c));
  }

  lemma ShortFields(b: string, last: string, c: Clock)
    requires |b| > 0 && AllDigits(b) && DecValue(b) == c.m && c.h == 0
    requires ParseSecondsToMs(last) == Some(c.s * 1000 + c.ms)
    ensures FieldsToMs([b, last]) == Some(ClockMs(c))
  {
    ParseIntDigits(b);
    TwoFields(b, last, c);
  }

  lemma TwoFields(b: string, last: string, c: Clock)
    requires c.h == 0 && ParseDecimal(b) == Some(c.m) && ParseSecondsToMs(last) == Some(c.s * 1000 + c.ms)
    ensures FieldsToMs([b, last]) == Some(ClockMs(c))
  {
    assert c.m * 60 * 1000 + (c.s * 1000 + c.ms) == ClockMs(c);
  }

  lemma ShortStampFields(m: nat, s: nat, ms: nat, x: string)
    requires m < 100 && s < 60 && ms < 1000
    requires x == ShortStamp(m, s, ms)
    ensures TimeFields(x) == [Pad2(m), Pad2(s) + "." + Pad3(ms)]
  {
    var b, c, p := Pad2(m), Pad2(s), Pad3(ms);
    DigitsExclude(b, ' ');
    DigitsExclude(c, ' ');
    DigitsExclude(p, ' ');
    DigitsExclude(b, ':');
    DigitsExclude(c, ':');
    DigitsExclude(p, ':');
    DigitsExclude(b, ',');
    DigitsExclude(c, ',');
    DigitsExclude(p, ',');
    var last := c + "." + p;
    assert x == b + [':'] + last;
    assert ',' !in x && ' ' !in x;
    ReplaceCommaNone(x);
    FirstWord(x, "");
    assert x + "" == x;
    SplitTwo(b, last, ':');
  }

  lemma ParseNoColon(t: string)
    requires forall i :: 0 <= i < |t| ==> t[i] != ':' && t[i] != ',' && t[i] != ' '
    ensures ParseTimeToMs(t) == None
  {
    NoCharNoOccurrence(t, ',');
    ReplaceFirstNone(t, ",", ".");
    FirstWord(t, "");
    assert t + "" == t;
    SplitNoSep(t, ':');
    assert TimeFields(t) == [t];
  }

  // ---- parseSubtitleManually ----

  /** A cue of the fallback reader, times in milliseconds. */
  datatype ManualCue = ManualCue(start: int, end: int, text: string)

  /** The end of a match of `/\r?\n\r?\n/` starting at `p`.  Giving back an optional
      '\r' never helps, because a '\n' would have to stand where the '\r' is, so the
      match at `p` is unique. */
  function BreakAt(s: string, p: nat): (r: Option<nat>)
    ensures r.Some? ==> p + 2 <= r.value <= |s|
  {
    var p1 := if p < |s| && s[p] == '\r' then p + 1 else p;
    if !(p1 < |s| && s[p1] == '\n') then None
    else
      var p2 := p1 + 1;
      var p3 := if p2 < |s| && s[p2] == '\r' then p2 + 1 else p2;
      if p3 < |s| && s[p3] == '\n' then Some(p3 + 1) else None
  }

  /** The leftmost blank-line separator at or after `from`: its start and end. */
  function FirstBreak(s: string, from: nat): (r: Option<(nat, nat)>)
    ensures r.Some? ==> from <= r.value.0 && r.value.0 + 2 <= r.value.1 <= |s|
    decreases |s| - from
  {
    if from >= |s| then None
    else match BreakAt(s, from)
      case Some(e) => Some((from, e))
      case None => FirstBreak(s, from + 1)
  }

  /** `subtitleText.split(/\r?\n\r?\n/)`. */
  function Entries(s: string): (entries: seq<string>)
    ensures |entries| >= 1
    decreases |s|
  {
    match FirstBreak(s, 0)
    case None => [s]
    case Some(m) => [s[..m.0]] + Entries(s[m.1..])
  }

  /** One trailing '\r' removed. */
  function DropCr(line: string): string {
    if |line| > 0 && line[|line| - 1] == '\r' then line[..|line| - 1] else line
  }

  /** `entry.split(/\r?\n/)`: split at each '\n', a '\r' just before it going with the
      separator. */
  function Lines(entry: string): (lines: seq<string>)
    ensures |lines| == |Split(entry, '\n')|
  {
    var parts := Split(entry, '\n');
    seq(|parts|, i requires 0 <= i < |parts| => if i < |parts| - 1 then DropCr(parts[i]) else parts[i])
  }

  /** `lines.findIndex(line => line.includes('-->'))` from `from` on. */
  function FindTimingLine(lines: seq<string>, from: nat): (r: Option<nat>)
    ensures r.Some? ==> from <= r.value < |lines| && Contains(lines[r.value], "-->")
    ensures r.Some? ==> forall j :: from <= j < r.value ==> !Contains(lines[j], "-->")
    ensures r.None? ==> forall j :: from <= j < |lines| ==> !Contains(lines[j], "-->")
    decreases |lines| - from
  {
    if from >= |lines| then None
    else if Contains(lines[from], "-->") then Some(from)
    else FindTimingLine(lines, from + 1)
  }

  /** The cue of one entry, if the entry gives one. */
  function EntryCue(entry: string, isVtt: bool): Option<ManualCue> {
    if Trim(entry) == "" then None
    else if isVtt && Trim(entry) == "WEBVTT" then None
    else
      var lines := Lines(entry);
      if |lines| < 2 then None
      else match FindTimingLine(lines, 0)
        case None => None
        case Some(k) => TimedCue(lines, k)
  }

  /** The cue whose timing line is `lines[k]`: exactly one "-->", two times that parse,
      and the lines after it as text. */
  function TimedCue(lines: seq<string>, k: nat): Option<ManualCue>
    requires k < |lines|
  {
    var timeParts := SplitOn(lines[k], "-->");
    if |timeParts| != 2 then None
    else
      var start, end := ParseTimeToMs(Trim(timeParts[0])), ParseTimeToMs(Trim(timeParts[1]));
      if start.None? || end.None? then None
      else Some(ManualCue(start.value, end.value, Join(lines[k + 1..], "\n")))
  }

  /** `subtitleText.trim().startsWith('WEBVTT')`. */
  predicate IsVtt(text: string) { StartsWith(Trim(text), "WEBVTT") }

  /** The cues of the entries, in entry order. */
  function CuesOfEntries(entries: seq<string>, isVtt: bool): seq<ManualCue> {
    if |entries| == 0 then []
    else
      var init := CuesOfEntries(entries[..|entries| - 1], isVtt);
      match EntryCue(entries[|entries| - 1], isVtt)
      case None => init
      case Some(c) => init + [c]
  }

  /** What `parseSubtitleManually(subtitleText)` returns. */
  function ManualCues(text: string): seq<ManualCue> {
    CuesOfEntries(Entries(text), IsVtt(text))
  }

  /** `parseSubtitleManually`: one pass over the entries pushing each entry's cue. */
  method ParseSubtitleManually(subtitleText: string) returns (cues: seq<ManualCue>)
    ensures cues == ManualCues(subtitleText)
  {
    cues := [];
    var isVtt := IsVtt(subtitleText);
    var entries := Entries(subtitleText);
    for k := 0 to |entries|
      invariant cues == CuesOfEntries(entries[..k], isVtt)
    {
      assert entries[..k + 1][..k] == entries[..k];
      var cue := EntryCue(entries[k], isVtt);
      if cue.Some? {
        cues := cues + [cue.value];
      }
    }
    assert entries[..|entries|] == entries;
  }

  /** Every cue comes from its own entry: there are no more cues than entries, and each
      cue is the cue of some entry. */
  lemma {:induction false} CuesOfEntriesBound(entries: seq<string>, isVtt: bool)
    ensures |CuesOfEntries(entries, isVtt)| <= |entries|
    ensures forall c :: c in CuesOfEntries(entries, isVtt) ==> exists e :: e in entries && EntryCue(e, isVtt) == Some(c)
  {
    if |entries| > 0 {
      var init := entries[..|entries| - 1];
      CuesOfEntriesBound(init, isVtt);
      forall c | c in CuesOfEntries(entries, isVtt) ensures exists e :: e in entries && EntryCue(e, isVtt) == Some(c) {
        if c in CuesOfEntries(init, isVtt) {
          var e :| e in init && EntryCue(e, isVtt) == Some(c);
          assert e in entries;
        } else {
          assert EntryCue(entries[|entries| - 1], isVtt) == Some(c);
        }
      }
    }
  }

  // ---- reading back a written cue ----

  /** An entry as a subtitle file writes it: the timing line, then the text. */
  function CueEntry(start: Clock, end: Clock, mark: char, text: string): string
    requires ValidClock(start) && ValidClock(end)
  {
    ClockText(start, mark) + " --> " + ClockText(end, mark) + "\n" + text
  }

  /** An entry made of a timing line in either mark and a text without '\r' gives back
      its times and its text. */
  lemma {:induction false} EntryCueRoundTrip(start: Clock, end: Clock, mark: char, text: string, isVtt: bool)
    requires ValidClock(start) && ValidClock(end)
    requires mark == '.' || mark == ','
    requires forall i :: 0 <= i < |text| ==> text[i] != '\r'
    ensures EntryCue(CueEntry(start, end, mark, text), isVtt) == Some(ManualCue(ClockMs(start), ClockMs(end), text))
  {
    var a, b := ClockText(start, mark), ClockText(end, mark);
    StampChars(start, mark);
    StampChars(end, mark);
    ParseStamp(start, mark, "", a);
    ParseStamp(end, mark, "", b);
    EntryCueOfTimingLine(a, b, text, isVtt, ClockMs(start), ClockMs(end));
  }

  /** The characters a timestamp is made of. */
  predicate StampLike(s: string) {
    |s| > 0 && IsDigit(s[0]) && IsDigit(s[|s| - 1]) &&
    forall i :: 0 <= i < |s| ==> IsDigit(s[i]) || s[i] == ':' || s[i] == '.' || s[i] == ','
  }

  /** An entry whose first line is two timestamps around "-->" gives their values and
      the rest of the entry as the text. */
  lemma {:induction false} EntryCueOfTimingLine(a: string, b: string, text: string, isVtt: bool, x: int, y: int)
    requires StampLike(a) && StampLike(b)
    requires ParseTimeToMs(a) == Some(x) && ParseTimeToMs(b) == Some(y)
    requires forall i :: 0 <= i < |text| ==> text[i] != '\r'
    ensures EntryCue(a + " --> " + b + "\n" + text, isVtt) == Some(ManualCue(x, y, text))
  {
    EntryOfTimingLine(a, b, text, isVtt);
    TimingLineCue(a, b, text, x, y);
  }

  /** Such an entry is read through its first line. */
  lemma EntryOfTimingLine(a: string, b: string, text: string, isVtt: bool)
    requires StampLike(a) && StampLike(b)
    requires forall i :: 0 <= i < |text| ==> text[i] != '\r'
    ensures EntryCue(a + " --> " + b + "\n" + text, isVtt) == TimedCue([a + " --> " + b] + Split(text, '\n'), 0)
  {
    EntryLines(a, b, text);
    TimingLineFirst(a, b, text);
    EntryCueFirstLine(a + " --> " + b + "\n" + text, isVtt, [a + " --> " + b] + Split(text, '\n'));
  }

  /** Such an entry is not blank, and its first line is the timing line. */
  lemma EntryLines(a: string, b: string, text: string)
    requires StampLike(a) && StampLike(b)
    requires forall i :: 0 <= i < |text| ==> text[i] != '\r'
    ensures Trim(a + " --> " + b + "\n" + text) != "" && Trim(a + " --> " + b + "\n" + text) != "WEBVTT"
    ensures Contains(a + " --> " + b, "-->")
  {
    var t := a + " --> " + b;
    EntryStartsWithDigit(t + "\n" + text, a);
    assert OccursAt(t, "-->", |a| + 1) by { assert t[|a| + 1..|a| + 4] == "-->"; }
  }

  lemma TimingLineFirst(a: string, b: string, text: string)
    requires StampLike(a) && StampLike(b)
    requires forall i :: 0 <= i < |text| ==> text[i] != '\r'
    ensures Lines(a + " --> " + b + "\n" + text) == [a + " --> " + b] + Split(text, '\n')
  {
    TimingLineChars(a, b);
    LinesOfEntry(a + " --> " + b, text);
  }

  lemma EntryStartsWithDigit(entry: string, a: string)
    requires StampLike(a) && |a| <= |entry| && entry[..|a|] == a
    ensures Trim(entry) != "" && Trim(entry) != "WEBVTT"
  {
    assert entry[0] == a[0];
    EntryNotBlank(entry);
  }

  /** The first line's two timestamps and the remaining lines make the cue. */
  lemma TimingLineCue(a: string, b: string, text: string, x: int, y: int)
    requires StampLike(a) && StampLike(b)
    requires ParseTimeToMs(a) == Some(x) && ParseTimeToMs(b) == Some(y)
    ensures TimedCue([a + " --> " + b] + Split(text, '\n'), 0) == Some(ManualCue(x, y, text))
  {
    var lines := [a + " --> " + b] + Split(text, '\n');
    TimingLineSplit(a, b);
    TrimPadded(a, b);
    JoinSplit(text, '\n');
    assert lines[1..] == Split(text, '\n');
    TimedCueFirst(lines, x, y, text);
  }

  /** The characters of a timing line made of two timestamps. */
  lemma TimingLineChars(a: string, b: string)
    requires StampLike(a) && StampLike(b)
    ensures forall i :: 0 <= i < |a + " --> " + b| ==> (a + " --> " + b)[i] != '\n'
    ensures (a + " --> " + b)[|a + " --> " + b| - 1] != '\r'
  {
    var t := a + " --> " + b;
    forall i | 0 <= i < |t| ensures t[i] != '\n' {
      if i < |a| { assert t[i] == a[i]; }
      else if i >= |a| + 5 { assert t[i] == b[i - |a| - 5]; }
    }
    assert t[|t| - 1] == b[|b| - 1];
  }

  /** An entry that is neither blank nor the header, whose first line holds "-->", gives
      the cue of that line. */
  lemma EntryCueFirstLine(entry: string, isVtt: bool, lines: seq<string>)
    requires Trim(entry) != "" && Trim(entry) != "WEBVTT"
    requires Lines(entry) == lines && |lines| >= 2 && Contains(lines[0], "-->")
    ensures EntryCue(entry, isVtt) == TimedCue(lines, 0)
  {
    assert FindTimingLine(lines, 0) == Some(0);
  }

  /** The cue of a timing line whose two halves read as `start` and `end`. */
  lemma TimedCueFirst(lines: seq<string>, start: int, end: int, text: string)
    requires |lines| >= 1
    requires |SplitOn(lines[0], "-->")| == 2
    requires ParseTimeToMs(Trim(SplitOn(lines[0], "-->")[0])) == Some(start)
    requires ParseTimeToMs(Trim(SplitOn(lines[0], "-->")[1])) == Some(end)
    requires Join(lines[1..], "\n") == text
    ensures TimedCue(lines, 0) == Some(ManualCue(start, end, text))
  {
  }

  lemma {:induction false} StampChars(c: Clock, mark: char)
    requires ValidClock(c) && (mark == '.' || mark == ',')
    ensures |ClockText(c, mark)| == 12 && StampLike(ClockText(c, mark))
  {
    Pad2Value(c.h);
    Pad2Value(c.m);
    Pad2Value(c.s);
    var x, y, z, p := Pad2(c.h), Pad2(c.m), Pad2(c.s), Pad3(c.ms);
    var t := ClockText(c, mark);
    assert t == x + ":" + y + ":" + z + [mark] + p;
    forall i | 0 <= i < 12 ensures IsDigit(t[i]) || t[i] == ':' || t[i] == mark {
      if i < 2 { assert t[i] == x[i]; }
      else if 3 <= i < 5 { assert t[i] == y[i - 3]; }
      else if 6 <= i < 8 { assert t[i] == z[i - 6]; }
      else if 9 <= i { assert t[i] == p[i - 9]; }
    }
    assert t[0] == x[0] && t[11] == p[2];
    assert |t| == 12;
  }

  /** Splitting "A --> B" on "-->", when neither time holds a '-'. */
  lemma {:induction false} TimingLineSplit(a: string, b: string)
    requires StampLike(a) && StampLike(b)
    ensures SplitOn(a + " --> " + b, "-->") == [a + " ", " " + b]
  {
    var t := a + " --> " + b;
    forall j | 0 <= j < |a| + 1 ensures !OccursAt(t, "-->", j) {
      if j < |a| { assert t[j] == a[j]; } else { assert t[j] == ' '; }
    }
    assert OccursAt(t, "-->", |a| + 1) by { assert t[|a| + 1..|a| + 4] == "-->"; }
    assert Contains(t, "-->");
    var i := IndexOf(t, "-->").value;
    assert i == |a| + 1;
    assert t[..i] == a + " ";
    var rest := t[i + 3..];
    assert rest == " " + b;
    forall j | 0 <= j <= |rest| ensures !OccursAt(rest, "-->", j) {
      if j + 3 <= |rest| {
        assert rest[j..j + 3][0] == rest[j];
        if j > 0 { assert rest[j] == b[j - 1]; }
      }
    }
    assert IndexOf(rest, "-->") == None;
  }

  /** One space after the first time and before the second is trimmed away. */
  lemma TrimPadded(a: string, b: string)
    requires StampLike(a) && StampLike(b)
    ensures Trim(a + " ") == a && Trim(" " + b) == b
  {
    assert TrimStart(a + " ") == a + " ";
    assert (a + " ")[..|a|] == a;
    assert TrimEnd(a + " ") == TrimEnd(a);
    assert (" " + b)[1..] == b;
    assert TrimStart(" " + b) == TrimStart(b);
  }

  /** The lines of "T\ntext": the timing line, then the lines of the text. */
  lemma {:induction false} LinesOfEntry(t: string, text: string)
    requires |t| > 0 && t[|t| - 1] != '\r'
    requires forall i :: 0 <= i < |t| ==> t[i] != '\n'
    requires forall i :: 0 <= i < |text| ==> text[i] != '\r'
    ensures Lines(t + "\n" + text) == [t] + Split(text, '\n')
  {
    assert t + "\n" + text == t + ['\n'] + text;
    SplitAppendSep(t, text, '\n');
    SplitAbsent(text, '\n', '\r');
    var parts := Split(t + "\n" + text, '\n');
    var lines := Lines(t + "\n" + text);
    forall i | 0 <= i < |parts| ensures lines[i] == parts[i] {
      if i > 0 {
        assert parts[i] == Split(text, '\n')[i - 1];
        if |parts[i]| > 0 { assert parts[i][|parts[i]| - 1] != '\r'; }
      }
    }
  }

  /** An entry starting with a digit is neither blank nor the bare header. */
  lemma EntryNotBlank(entry: string)
    requires |entry| > 0 && IsDigit(entry[0])
    ensures Trim(entry) != "" && Trim(entry) != "WEBVTT"
  {
    assert TrimStart(entry) == entry;
    TrimEndProps(entry);
    var r := TrimEnd(entry);
    if |r| > 0 {
      assert r[0] == entry[0];
    }
  }

  // ---- the subtitle shown at a playback time ----

  /** A cue is on screen at `nowMs` when `start <= nowMs <= end`. */
  predicate Covers(cue: ManualCue, nowMs: int) { cue.start <= nowMs <= cue.end }

  /** The first cue in order that is on screen at `nowMs`. */
  function CueAt(cues: seq<ManualCue>, nowMs: int): (r: Option<nat>)
    ensures r.Some? ==> r.value < |cues| && Covers(cues[r.value], nowMs) &&
                        forall j :: 0 <= j < r.value ==> !Covers(cues[j], nowMs)
    ensures r.None? ==> forall j :: 0 <= j < |cues| ==> !Covers(cues[j], nowMs)
  {
    if |cues| == 0 then None
    else if Covers(cues[0], nowMs) then Some(0)
    else match CueAt(cues[1..], nowMs)
      case None => None
      case Some(k) => Some(k + 1)
  }

  /** The text of that cue, or "" when none is on screen. */
  function TextAt(cues: seq<ManualCue>, nowMs: int): string {
    match CueAt(cues, nowMs)
    case None => ""
    case Some(k) => cues[k].text
  }

  /** The first covering cue wins even where later cues overlap it, and a time no cue
      covers shows nothing. */
  lemma TextAtProps(cues: seq<ManualCue>, nowMs: int, k: nat)
    requires k < |cues| && Covers(cues[k], nowMs)
    requires forall j :: 0 <= j < k ==> !Covers(cues[j], nowMs)
    ensures TextAt(cues, nowMs) == cues[k].text
    ensures TextAt(cues + [ManualCue(nowMs, nowMs, "")], nowMs) == cues[k].text
  {
    var longer := cues + [ManualCue(nowMs, nowMs, "")];
    assert forall j :: 0 <= j < |cues| ==> longer[j] == cues[j];
  }

  /** The loop of `updateSubtitle`: the text of the first cue on screen, stopping at it. */
  method FindCueText(cues: seq<ManualCue>, nowMs: int) returns (text: string)
    ensures text == TextAt(cues, nowMs)
  {
    text := "";
    var i := 0;
    while i < |cues|
      invariant 0 <= i <= |cues|
      invariant forall j :: 0 <= j < i ==> !Covers(cues[j], nowMs)
      invariant text == ""
    {
      if nowMs >= cues[i].start && nowMs <= cues[i].end {
        text := cues[i].text;
        TextAtProps(cues, nowMs, i);
        return;
      }
      i := i + 1;
    }
  }

  // ---- the menu's subtitle state ----

  /** `loadSubtitles` / `loadQualityOptions`: a missing or empty list is [], anything else
      is returned as it is. */
  function LoadList<T>(list: Option<seq<T>>): (r: seq<T>)
    ensures list.Some? ==> r == list.value
    ensures list.None? ==> r == []
  {
    if list.None? || |list.value| == 0 then [] else list.value
  }

  /** The label of the selected subtitle: "Off" for -1, else the track's language, or
      "Off" when it has none. */
  function SubtitleLabel(languages: seq<string>, index: int): (text: string)
    requires index == -1 || 0 <= index < |languages|
    ensures index == -1 ==> text == "Off"
    ensures index != -1 && languages[index] != "" ==> text == languages[index]
    ensures index != -1 && languages[index] == "" ==> text == "Off"
  {
    if index == -1 then "Off" else if languages[index] != "" then languages[index] else "Off"
  }

  /** The closure state of the settings menu that drives the fallback subtitle display:
      the selected subtitle, the parsed cues (`null` is None), whether the update
      interval runs, whether the subtitle container exists, and the text it shows. */
  class SubtitleMenu {
    var currentSubtitleIndex: int
    var subtitleData: Option<seq<ManualCue>>
    var intervalActive: bool
    var hasContainer: bool
    var shown: string
    var currentLabel: string

    /** The interval runs only while cues are loaded, and text is shown only in a
        container. */
    predicate Valid()
      reads this
    {
      (intervalActive ==> subtitleData.Some? && hasContainer) &&
      (!hasContainer ==> shown == "") &&
      (subtitleData.Some? ==> hasContainer)
    }

    constructor()
      ensures Valid()
      ensures currentSubtitleIndex == -1 && subtitleData == None && !intervalActive && !hasContainer
      ensures shown == "" && currentLabel == "Off"
    {
      currentSubtitleIndex := -1;
      subtitleData := None;
      intervalActive := false;
      hasContainer := false;
      shown := "";
      currentLabel := "Off";
    }

    /** `updateSubtitle(time)`: without cues or a container nothing changes; otherwise the
        container shows the text of the first cue on screen at `nowMs`, or nothing. */
    method UpdateSubtitle(nowMs: int)
      requires Valid()
      modifies this
      ensures Valid()
      ensures subtitleData == old(subtitleData) && intervalActive == old(intervalActive)
      ensures hasContainer == old(hasContainer) && currentSubtitleIndex == old(currentSubtitleIndex)
      ensures currentLabel == old(currentLabel)
      ensures old(subtitleData).None? || !old(hasContainer) ==> shown == old(shown)
      ensures old(subtitleData).Some? && old(hasContainer) ==> shown == TextAt(old(subtitleData).value, nowMs)
    {
      if subtitleData.None? || !hasContainer {
        return;
      }
      shown := FindCueText(subtitleData.value, nowMs);
    }

    /** `stopSubtitleDisplay()`: the interval stops, the container is emptied and the cues
        are dropped; the container itself stays. */
    method StopSubtitleDisplay()
      requires Valid()
      modifies this
      ensures Valid()
      ensures !intervalActive && subtitleData == None && hasContainer == old(hasContainer)
      ensures shown == "" && currentSubtitleIndex == old(currentSubtitleIndex) && currentLabel == old(currentLabel)
    {
      intervalActive := false;
      if hasContainer {
        shown := "";
      }
      subtitleData := None;
    }

    /** `startSubtitleDisplay(subtitle)`: the display is stopped, a container is made if
        there is none, the parsed cues are loaded and the interval starts. */
    method StartSubtitleDisplay(parsed: seq<ManualCue>)
      requires Valid()
      modifies this
      ensures Valid()
      ensures subtitleData == Some(parsed) && intervalActive && hasContainer && shown == ""
      ensures currentSubtitleIndex == old(currentSubtitleIndex) && currentLabel == old(currentLabel)
    {
      StopSubtitleDisplay();
      hasContainer := true;
      subtitleData := Some(parsed);
      intervalActive := true;
    }

    /** A click on the subtitle option `index` of the list whose languages are `languages`:
        -1 turns subtitles off, any other index is stored and its cues (`parsed`) are
        displayed; the label follows the choice. */
    method SelectSubtitle(index: int, languages: seq<string>, parsed: seq<ManualCue>)
      requires Valid()
      requires index == -1 || 0 <= index < |languages|
      modifies this
      ensures Valid()
      ensures currentSubtitleIndex == index && currentLabel == SubtitleLabel(languages, index)
      ensures index == -1 ==> subtitleData == None && !intervalActive && shown == "" && hasContainer == old(hasContainer)
      ensures index != -1 ==> subtitleData == Some(parsed) && intervalActive && hasContainer && shown == ""
    {
      if index == -1 {
        currentSubtitleIndex := -1;
        StopSubtitleDisplay();
      } else {
        currentSubtitleIndex := index;
        StartSubtitleDisplay(parsed);
      }
      currentLabel := if index == -1 then "Off" else if languages[index] != "" then languages[index] else "Off";
    }
  }
}
