/** The timing-line pattern that the subtitle readers match with a regular expression:
    `(\d{2}:\d{2}:\d{2}M\d{3})\s*-->\s*(\d{2}:\d{2}:\d{2}M\d{3})`, where the mark `M`
    before the milliseconds is '.' in WebVTT and ',' in SubRip. */
module CueTiming {

  import opened Wrappers
  import opened Text

  const VttMark: char := '.'
  const SrtMark: char := ','

  /** `\d{2}:\d{2}:\d{2}M\d{3}` matches at position `p`. */
  predicate StampAt(s: string, p: nat, mark: char) {
    p + 12 <= |s| &&
    IsDigit(s[p]) && IsDigit(s[p + 1]) && s[p + 2] == ':' &&
    IsDigit(s[p + 3]) && IsDigit(s[p + 4]) && s[p + 5] == ':' &&
    IsDigit(s[p + 6]) && IsDigit(s[p + 7]) && s[p + 8] == mark &&
    IsDigit(s[p + 9]) && IsDigit(s[p + 10]) && IsDigit(s[p + 11])
  }

  /** A whole "HH:MM:SSMmmm" text. */
  predicate IsStamp(t: string, mark: char) { |t| == 12 && StampAt(t, 0, mark) }

  /** The first position at or after `q` that is not white space. */
  function SkipSpaces(s: string, q: nat): (r: nat)
    requires q <= |s|
    ensures q <= r <= |s| && (r < |s| ==> !IsSpace(s[r]))
    decreases |s| - q
  {
    if q < |s| && IsSpace(s[q]) then SkipSpaces(s, q + 1) else q
  }

  /** The whole pattern matches at `p`; the two captured times.  A greedy `\s*` cannot give
      back a space here, because neither "-->" nor a digit is a space, so the match at `p`
      is unique. */
  function TimingAt(s: string, p: nat, mark: char): (r: Option<(string, string)>)
    ensures r.Some? ==> IsStamp(r.value.0, mark) && IsStamp(r.value.1, mark)
  {
    if !StampAt(s, p, mark) then None
    else
      var q := SkipSpaces(s, p + 12);
      if !OccursAt(s, "-->", q) then None
      else
        var r := SkipSpaces(s, q + 3);
        if !StampAt(s, r, mark) then None
        else
          assert s[p..p + 12][0] == s[p] && s[r..r + 12][0] == s[r];
          Some((s[p..p + 12], s[r..r + 12]))
  }

  /** `s.match(...)`: the leftmost match at or after `from`. */
  function FindTiming(s: string, from: nat, mark: char): (r: Option<(string, string)>)
    ensures r.Some? ==> IsStamp(r.value.0, mark) && IsStamp(r.value.1, mark)
    decreases |s| - from
  {
    if from + 12 > |s| then None
    else if TimingAt(s, from, mark).Some? then TimingAt(s, from, mark)
    else FindTiming(s, from + 1, mark)
  }

  /** The search finds the leftmost match, and none only when there is none. */
  lemma {:induction false} FindTimingLeftmost(s: string, from: nat, mark: char)
    ensures FindTiming(s, from, mark).Some? ==>
      exists p :: from <= p && TimingAt(s, p, mark) == FindTiming(s, from, mark) &&
                  forall q :: from <= q < p ==> TimingAt(s, q, mark).None?
    ensures FindTiming(s, from, mark).None? ==> forall q :: from <= q ==> TimingAt(s, q, mark).None?
    decreases |s| - from
  {
    if from + 12 <= |s| {
      if TimingAt(s, from, mark).Some? {
        assert TimingAt(s, from, mark) == FindTiming(s, from, mark);
      } else {
        FindTimingLeftmost(s, from + 1, mark);
        if FindTiming(s, from + 1, mark).Some? {
          var p :| from + 1 <= p && TimingAt(s, p, mark) == FindTiming(s, from + 1, mark) &&
                   forall q :: from + 1 <= q < p ==> TimingAt(s, q, mark).None?;
          assert forall q :: from <= q < p ==> TimingAt(s, q, mark).None?;
        }
      }
    } else {
      NoRoomNoTiming(s, from, mark);
    }
  }

  /** No match starts where fewer than twelve characters are left. */
  lemma NoRoomNoTiming(s: string, from: nat, mark: char)
    requires from + 12 > |s|
    ensures forall q :: from <= q ==> TimingAt(s, q, mark).None?
  {
    forall q | from <= q ensures TimingAt(s, q, mark).None? {
      assert !StampAt(s, q, mark);
    }
  }

  /** A match is exactly the two times around "-->" with only white space between: the
      pattern accepts the text written by `Timing` and gives back its two times. */
  function Timing(startTime: string, endTime: string): string {
    startTime + " --> " + endTime
  }

  lemma {:induction false} TimingRoundTrip(startTime: string, endTime: string, mark: char)
    requires IsStamp(startTime, mark) && IsStamp(endTime, mark)
    ensures FindTiming(Timing(startTime, endTime), 0, mark) == Some((startTime, endTime))
  {
    var s := Timing(startTime, endTime);
    assert s[..12] == startTime;
    assert s[12] == ' ';
    assert SkipSpaces(s, 13) == 13;
    assert s[13..16] == "-->";
    assert s[16] == ' ';
    assert SkipSpaces(s, 17) == 17;
    assert s[17..29] == endTime;
    forall i | 0 <= i < 12 ensures s[i] == startTime[i] && s[17 + i] == endTime[i] {
    }
    assert StampAt(s, 0, mark);
    assert StampAt(s, 17, mark);
  }
}
