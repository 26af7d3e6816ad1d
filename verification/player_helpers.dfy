/** Time helpers of the custom video player: the clock text under the seek bar and the
    reading of subtitle timestamps. */
module PlayerHelpers {

  import opened Wrappers
  import opened Text
  import opened Numbers

  // ---- formatTime / parseTimeToSeconds ----

  /** `formatTime(time)` for a whole number of seconds: "h:mm:ss" from one hour on,
      "m:ss" below. */
  function FormatTime(time: int): string {
    var hours := time / 3600;
    var minutes := JsRem(time, 3600) / 60;
    var seconds := JsRem(time, 60);
    if hours > 0 then
      IntToString(hours) + ":" + PadStart2(IntToString(minutes)) + ":" + PadStart2(IntToString(seconds))
    else
      IntToString(minutes) + ":" + PadStart2(IntToString(seconds))
  }

  /** For a non-negative time the fields are the hours, the minutes below 60 and the
      seconds below 60, each of the last two written with exactly two digits. */
  lemma FormatTimeFields(time: int)
    requires time >= 0
    ensures time >= 3600 ==>
      FormatTime(time) == NatToString(time / 3600) + ":" + Pad2(time % 3600 / 60) + ":" + Pad2(time % 60)
    ensures time < 3600 ==> FormatTime(time) == NatToString(time / 60) + ":" + Pad2(time % 60)
    ensures time % 3600 / 60 < 60 && time % 60 < 60
  {
    var minutes, seconds := time % 3600 / 60, time % 60;
    assert JsRem(time, 3600) / 60 == minutes && JsRem(time, 60) == seconds;
    assert minutes < 60 && seconds < 60;
    PadStart2Pad2(minutes);
    PadStart2Pad2(seconds);
    assert IntToString(time / 3600) == NatToString(time / 3600);
    assert IntToString(time / 60) == NatToString(time / 60);
    if time < 3600 {
      assert time / 3600 == 0 && time % 3600 == time;
      assert minutes == time / 60;
    }
  }

  /** What the JavaScript expression evaluates to: a TypeError (fewer than three ':'
      fields), NaN, or a number of seconds given here in milliseconds. */
  datatype TimeValue = TypeError | NotANumber | Ms(ms: int)

  /** `parseTimeToSeconds(timeString)`, times 1000.  The fraction after ',' or '.' is read
      as a whole number of milliseconds, so "01.5" is one second and five milliseconds. */
  function ParseTimeToSeconds(timeString: string): TimeValue {
    var parts := Split(timeString, ':');
    if |parts| < 3 then TypeError
    else Combine(ParseInt(parts[0]), ParseInt(parts[1]), SecondsField(parts[2]), MillisField(parts[2]))
  }

  /** `seconds.split(/[,.]/)`. */
  function SecondPieces(field: string): (p: seq<string>)
    ensures |p| >= 1
  {
    Split(ReplaceChar(field, ',', '.'), '.')
  }

  function SecondsField(field: string): Option<int> {
    ParseInt(SecondPieces(field)[0])
  }

  /** `parseInt(millisecs || 0)`: a missing or empty fraction counts as 0. */
  function MillisField(field: string): Option<int> {
    var pieces := SecondPieces(field);
    if |pieces| >= 2 && pieces[1] != "" then ParseInt(pieces[1]) else Some(0)
  }

  /** The sum, which is NaN as soon as one of its terms is. */
  function Combine(h: Option<int>, m: Option<int>, s: Option<int>, ms: Option<int>): TimeValue {
    if h.None? || m.None? || s.None? || ms.None? then NotANumber
    else Ms((h.value * 3600 + m.value * 60 + s.value) * 1000 + ms.value)
  }

  lemma CombineValues(h: int, m: int, s: int, ms: int)
    ensures Combine(Some(h), Some(m), Some(s), Some(ms)) == Ms((h * 3600 + m * 60 + s) * 1000 + ms)
  {
  }

  lemma CombineWhole(h: int, m: int, s: int)
    ensures Combine(Some(h), Some(m), Some(s), Some(0)) == Ms((h * 3600 + m * 60 + s) * 1000)
  {
  }

  lemma {:induction false} ThreeFields(hs: string, ms: string, last: string)
    requires AllDigits(hs) && AllDigits(ms) && ':' !in last
    ensures ParseTimeToSeconds(hs + [':'] + ms + [':'] + last) ==
      Combine(ParseInt(hs), ParseInt(ms), SecondsField(last), MillisField(last))
  {
    assert forall i :: 0 <= i < |last| ==> last[i] != ':' by {
      forall i | 0 <= i < |last| ensures last[i] != ':' { assert last[i] in last; }
    }
    SplitThree(hs, ms, last, ':');
  }

  lemma WholeSeconds(ss: string)
    requires AllDigits(ss)
    ensures SecondsField(ss) == ParseInt(ss) && MillisField(ss) == Some(0)
  {
    assert ReplaceChar(ss, ',', '.') == ss;
    SplitNoSep(ss, '.');
  }

  lemma FractionSeconds(ss: string, frac: string)
    requires AllDigits(ss) && |frac| > 0 && AllDigits(frac)
    ensures SecondsField(ss + ['.'] + frac) == ParseInt(ss) && MillisField(ss + ['.'] + frac) == ParseInt(frac)
  {
    assert ReplaceChar(ss + ['.'] + frac, ',', '.') == ss + ['.'] + frac;
    SplitTwo(ss, frac, '.');
  }

  /** Three digit fields read as hours, minutes and seconds. */
  lemma {:induction false} ParseThreeFields(hs: string, ms: string, ss: string)
    requires |hs| > 0 && AllDigits(hs) && |ms| > 0 && AllDigits(ms) && |ss| > 0 && AllDigits(ss)
    ensures ParseTimeToSeconds(hs + [':'] + ms + [':'] + ss) ==
      Ms((DecValue(hs) * 3600 + DecValue(ms) * 60 + DecValue(ss)) * 1000)
  {
    DigitsExclude(ss, ':');
    ThreeFields(hs, ms, ss);
    WholeSeconds(ss);
    ParseIntDigits(hs);
    ParseIntDigits(ms);
    ParseIntDigits(ss);
    var h, m, s := DecValue(hs), DecValue(ms), DecValue(ss);
    calc {
      ParseTimeToSeconds(hs + [':'] + ms + [':'] + ss);
      Combine(ParseInt(hs), ParseInt(ms), SecondsField(ss), MillisField(ss));
      Combine(Some(h), Some(m), Some(s), Some(0));
      { CombineWhole(h, m, s); }
      Ms((h * 3600 + m * 60 + s) * 1000);
    }
  }

  lemma NoColonFraction(ss: string, frac: string)
    requires AllDigits(ss) && AllDigits(frac)
    ensures ':' !in ss + ['.'] + frac
  {
    DigitsExclude(ss, ':');
    DigitsExclude(frac, ':');
  }

  /** The digits after the decimal mark count as whole milliseconds however many there are
      ("01.5" is 1005 ms, not 1500). */
  lemma {:induction false} FractionIsMilliseconds(hs: string, ms: string, ss: string, frac: string)
    requires |hs| > 0 && AllDigits(hs) && |ms| > 0 && AllDigits(ms) && |ss| > 0 && AllDigits(ss)
    requires |frac| > 0 && AllDigits(frac)
    ensures ParseTimeToSeconds(hs + [':'] + ms + [':'] + (ss + ['.'] + frac)) ==
      Ms((DecValue(hs) * 3600 + DecValue(ms) * 60 + DecValue(ss)) * 1000 + DecValue(frac))
  {
    FractionFields(hs, ms, ss, frac);
    CombineValues(DecValue(hs), DecValue(ms), DecValue(ss), DecValue(frac));
  }

  lemma {:induction false} FractionFields(hs: string, ms: string, ss: string, frac: string)
    requires |hs| > 0 && AllDigits(hs) && |ms| > 0 && AllDigits(ms) && |ss| > 0 && AllDigits(ss)
    requires |frac| > 0 && AllDigits(frac)
    ensures ParseTimeToSeconds(hs + [':'] + ms + [':'] + (ss + ['.'] + frac)) ==
      Combine(Some(DecValue(hs)), Some(DecValue(ms)), Some(DecValue(ss)), Some(DecValue(frac)))
  {
    NoColonFraction(ss, frac);
    ThreeFields(hs, ms, ss + ['.'] + frac);
    FractionSeconds(ss, frac);
    ParseIntDigits(hs);
    ParseIntDigits(ms);
    ParseIntDigits(ss);
    ParseIntDigits(frac);
  }

  lemma ClockDecomposition(time: int)
    requires time >= 0
    ensures (time / 3600 * 3600 + time % 3600 / 60 * 60 + time % 60) * 1000 == time * 1000
  {
    var a, r := time / 3600, time % 3600;
    var b, c := r / 60, r % 60;
    assert time == a * 3600 + r;
    assert r == b * 60 + c;
    ModSixty(time, a * 60 + b, c);
  }

  lemma ModSixty(x: int, q: int, m: int)
    requires 0 <= m < 60 && x == q * 60 + m
    ensures x % 60 == m
  {
  }

  /** From one hour on, reading back a formatted time gives the time; below one hour the
      two-field text is refused. */
  lemma {:induction false} FormatParseRoundTrip(time: int)
    requires time >= 0
    ensures time >= 3600 ==> ParseTimeToSeconds(FormatTime(time)) == Ms(time * 1000)
    ensures time < 3600 ==> ParseTimeToSeconds(FormatTime(time)) == TypeError
  {
    if time >= 3600 {
      FormatParseLong(time);
    } else {
      FormatParseShort(time);
    }
  }

  lemma FormatParseLong(time: int)
    requires time >= 3600
    ensures ParseTimeToSeconds(FormatTime(time)) == Ms(time * 1000)
  {
    FormatTimeFields(time);
    var h, m, s := time / 3600, time % 3600 / 60, time % 60;
    Pad2Value(m);
    Pad2Value(s);
    var hs, ms, ss := NatToString(h), Pad2(m), Pad2(s);
    assert FormatTime(time) == hs + [':'] + ms + [':'] + ss;
    DecValueNatToString(h);
    ParseThreeFields(hs, ms, ss);
    ClockDecomposition(time);
  }

  lemma FormatParseShort(time: int)
    requires 0 <= time < 3600
    ensures ParseTimeToSeconds(FormatTime(time)) == TypeError
  {
    FormatTimeFields(time);
    var s := time % 60;
    Pad2Value(s);
    var ms, ss := NatToString(time / 60), Pad2(s);
    assert FormatTime(time) == ms + [':'] + ss;
    SplitTwo(ms, ss, ':');
  }
}
