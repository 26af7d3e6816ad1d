/** `parseSRT`, the SubRip reader that the PrimeNet, PrimeBox and XPrime embed pages each
    carry a copy of: the text is trimmed and cut into blocks at blank lines, and a block of
    three or more lines whose second line holds the timing becomes a cue. */
module SrtSubtitles {

  import opened Wrappers
  import opened Text
  import opened Numbers
  import opened CueTiming

  /** A cue as `parseSRT` returns it; `index` is `parseInt` of the first line (None for NaN),
      and the times are the matched "HH:MM:SS,mmm" texts. */
  datatype SrtCue = SrtCue(index: Option<int>, startTime: string, endTime: string, text: string)

  // ---- srtText.trim().split(/\n\s*\n/) ----

  /** The separator `\n\s*\n` matches at `p`: where the match ends.  The greedy `\s*` runs
      over all the white space after the first '\n' and gives back up to the last '\n' in it. */
  function SeparatorAt(s: string, p: nat): (e: Option<nat>)
    ensures e.Some? ==> p + 2 <= e.value <= |s|
  {
    if p >= |s| || s[p] != '\n' then None
    else
      var q := SkipSpaces(s, p + 1);
      match LastIndexOfChar(s[p + 1..q], '\n')
      case None => None
      case Some(k) => Some(p + k + 2)
  }

  /** The leftmost separator at or after `from`: where it starts and where it ends. */
  function FirstSeparator(s: string, from: nat): (r: Option<(nat, nat)>)
    ensures r.Some? ==> from <= r.value.0 && r.value.0 + 2 <= r.value.1 <= |s|
    decreases |s| - from
  {
    if from >= |s| then None
    else match SeparatorAt(s, from)
      case Some(e) => Some((from, e))
      case None => FirstSeparator(s, from + 1)
  }

  /** `s.split(/\n\s*\n/)`: the pieces between leftmost separators, the search going on
      after the end of each one. */
  function SplitBlocks(s: string): (blocks: seq<string>)
    ensures |blocks| >= 1
    decreases |s|
  {
    match FirstSeparator(s, 0)
    case None => [s]
    case Some(m) => [s[..m.0]] + SplitBlocks(s[m.1..])
  }

  // ---- one block ----

  /** What one block contributes: `block.trim().split('\n')` kept when it has three or more
      lines and the second one holds the timing; the text is the third line on. */
  function BlockCue(block: string): Option<SrtCue> {
    var lines := Split(Trim(block), '\n');
    if |lines| < 3 then None
    else match FindTiming(lines[1], 0, SrtMark)
      case None => None
      case Some(m) => Some(SrtCue(ParseInt(lines[0]), m.0, m.1, Join(lines[2..], "\n")))
  }

  /** The cues of the blocks, in block order. */
  function CuesOf(blocks: seq<string>): seq<SrtCue> {
    if |blocks| == 0 then []
    else
      var c := BlockCue(blocks[|blocks| - 1]);
      CuesOf(blocks[..|blocks| - 1]) + (if c.Some? then [c.value] else [])
  }

  /** What `parseSRT(srtText)` returns. */
  function SrtCues(srtText: string): seq<SrtCue> {
    CuesOf(SplitBlocks(Trim(srtText)))
  }

  /** One more block adds its cue, if it has one. */
  lemma CuesOfStep(blocks: seq<string>, k: nat)
    requires k < |blocks|
    ensures CuesOf(blocks[..k + 1]) ==
      CuesOf(blocks[..k]) + (if BlockCue(blocks[k]).Some? then [BlockCue(blocks[k]).value] else [])
  {
    assert blocks[..k + 1][..k] == blocks[..k];
  }

  /** `parseSRT`: a `forEach` over the blocks pushing a cue for each block that qualifies. */
  method ParseSRT(srtText: string) returns (cues: seq<SrtCue>)
    ensures cues == SrtCues(srtText)
  {
    var blocks := SplitBlocks(Trim(srtText));
    cues := [];
    for k := 0 to |blocks|
      invariant cues == CuesOf(blocks[..k])
    {
      CuesOfStep(blocks, k);
      var lines := Split(Trim(blocks[k]), '\n');
      if |lines| >= 3 {
        var timeMatch := FindTiming(lines[1], 0, SrtMark);
        if timeMatch.Some? {
          cues := cues + [SrtCue(ParseInt(lines[0]), timeMatch.value.0, timeMatch.value.1, Join(lines[2..], "\n"))];
        }
      }
    }
    assert blocks[..|blocks|] == blocks;
  }

  /** Every cue carries two full "HH:MM:SS,mmm" times, and there are no more cues than blocks. */
  lemma {:induction false} CuesOfShape(blocks: seq<string>)
    ensures |CuesOf(blocks)| <= |blocks|
    ensures forall c :: c in CuesOf(blocks) ==> IsStamp(c.startTime, SrtMark) && IsStamp(c.endTime, SrtMark)
  {
    if |blocks| > 0 {
      CuesOfShape(blocks[..|blocks| - 1]);
    }
  }

  // ---- reading back a well-formed SubRip file ----

  /** Text whose every line starts with a character other than white space and whose last
      character is not white space either: no line of it is blank. */
  predicate Solid(t: string) {
    |t| > 0 && !IsSpace(t[0]) && !IsSpace(t[|t| - 1]) &&
    forall p :: 0 <= p < |t| && t[p] == '\n' ==> p + 1 < |t| && !IsSpace(t[p + 1])
  }

  /** A cue that can be written as a SubRip block and read back: a natural index, two
      "HH:MM:SS,mmm" times and a text with no blank line. */
  predicate WellFormed(c: SrtCue) {
    c.index.Some? && c.index.value >= 0 &&
    IsStamp(c.startTime, SrtMark) && IsStamp(c.endTime, SrtMark) && Solid(c.text)
  }

  /** The SubRip block of a cue: index, timing line, text. */
  function SrtBlock(c: SrtCue): string
    requires WellFormed(c)
  {
    NatToString(c.index.value) + "\n" + Timing(c.startTime, c.endTime) + "\n" + c.text
  }

  /** A SubRip file: the blocks separated by one blank line. */
  function SrtText(cues: seq<SrtCue>): string
    requires forall k :: 0 <= k < |cues| ==> WellFormed(cues[k])
  {
    Join(SrtBlocks(cues), "\n\n")
  }

  function SrtBlocks(cues: seq<SrtCue>): (blocks: seq<string>)
    requires forall k :: 0 <= k < |cues| ==> WellFormed(cues[k])
    ensures |blocks| == |cues| && forall k :: 0 <= k < |cues| ==> blocks[k] == SrtBlock(cues[k])
  {
    seq(|cues|, k requires 0 <= k < |cues| => SrtBlock(cues[k]))
  }

  /** `parseSRT` reads back every cue of a well-formed SubRip file, in order. */
  lemma {:induction false} ParseSrtRoundTrip(cues: seq<SrtCue>)
    requires forall k :: 0 <= k < |cues| ==> WellFormed(cues[k])
    ensures SrtCues(SrtText(cues)) == cues
  {
    if |cues| == 0 {
      assert SrtText(cues) == "";
      return;
    }
    var blocks := SrtBlocks(cues);
    forall k | 0 <= k < |blocks| ensures Solid(blocks[k]) {
      SolidBlock(cues[k]);
    }
    var s := Join(blocks, "\n\n");
    assert Solid(blocks[0]) && Solid(blocks[|blocks| - 1]);
    JoinEnds(blocks);
    TrimSolid(s);
    SplitBlocksJoin(blocks);
    CuesOfBlocks(cues);
  }

  lemma {:induction false} CuesOfBlocks(cues: seq<SrtCue>)
    requires forall k :: 0 <= k < |cues| ==> WellFormed(cues[k])
    ensures CuesOf(SrtBlocks(cues)) == cues
  {
    if |cues| > 0 {
      var n := |cues| - 1;
      CuesOfBlocks(cues[..n]);
      assert SrtBlocks(cues)[..n] == SrtBlocks(cues[..n]);
      BlockCueRoundTrip(cues[n]);
      assert cues[..n] + [cues[n]] == cues;
    }
  }

  /** One block reads back as its cue. */
  lemma BlockCueRoundTrip(c: SrtCue)
    requires WellFormed(c)
    ensures BlockCue(SrtBlock(c)) == Some(c)
  {
    var num, timing := NatToString(c.index.value), Timing(c.startTime, c.endTime);
    var b := SrtBlock(c);
    SolidBlock(c);
    TrimSolid(b);
    NatToStringDigits(c.index.value);
    NoNewline(timing, c.startTime, c.endTime);
    assert b == num + "\n" + (timing + "\n" + c.text);
    SplitAppendSep(num, timing + "\n" + c.text, '\n');
    SplitAppendSep(timing, c.text, '\n');
    var lines := Split(b, '\n');
    assert lines == [num, timing] + Split(c.text, '\n');
    assert lines[2..] == Split(c.text, '\n');
    JoinSplit(c.text, '\n');
    TimingRoundTrip(c.startTime, c.endTime, SrtMark);
    ParseNatToString(c.index.value);
  }

  lemma NoNewline(timing: string, startTime: string, endTime: string)
    requires IsStamp(startTime, SrtMark) && IsStamp(endTime, SrtMark) && timing == Timing(startTime, endTime)
    ensures forall i :: 0 <= i < |timing| ==> timing[i] != '\n'
  {
    forall i | 0 <= i < |timing| ensures timing[i] != '\n' {
      if i < 12 {
        assert timing[i] == startTime[i];
      } else if i >= 17 {
        assert timing[i] == endTime[i - 17];
      }
    }
  }

  lemma SolidBlock(c: SrtCue)
    requires WellFormed(c)
    ensures Solid(SrtBlock(c))
  {
    var num, timing := NatToString(c.index.value), Timing(c.startTime, c.endTime);
    NatToStringDigits(c.index.value);
    NoNewline(timing, c.startTime, c.endTime);
    assert Solid(num);
    assert timing[0] == c.startTime[0] && timing[|timing| - 1] == c.endTime[11];
    assert Solid(timing);
    SolidConcat(num, timing);
    SolidConcat(num + "\n" + timing, c.text);
  }

  lemma NatToStringDigits(n: nat)
    ensures |NatToString(n)| > 0 && AllDigits(NatToString(n))
  {
    DecValueNatToString(n);
  }

  lemma SolidConcat(a: string, b: string)
    requires Solid(a) && Solid(b)
    ensures Solid(a + "\n" + b)
  {
    var s := a + "\n" + b;
    forall p | 0 <= p < |s| && s[p] == '\n' ensures p + 1 < |s| && !IsSpace(s[p + 1]) {
      if p < |a| {
        assert s[p] == a[p] && s[p + 1] == a[p + 1];
      } else if p > |a| {
        assert s[p] == b[p - |a| - 1] && s[p + 1] == b[p - |a|];
      }
    }
  }

  /** Trimming leaves text that neither starts nor ends with white space unchanged. */
  lemma TrimSolid(s: string)
    requires |s| > 0 && !IsSpace(s[0]) && !IsSpace(s[|s| - 1])
    ensures Trim(s) == s
  {
    assert TrimStart(s) == s;
  }

  lemma {:induction false} JoinEnds(blocks: seq<string>)
    requires |blocks| > 0 && forall k :: 0 <= k < |blocks| ==> |blocks[k]| > 0
    ensures |Join(blocks, "\n\n")| > 0
    ensures Join(blocks, "\n\n")[0] == blocks[0][0]
    ensures Join(blocks, "\n\n")[|Join(blocks, "\n\n")| - 1] == blocks[|blocks| - 1][|blocks[|blocks| - 1]| - 1]
  {
    if |blocks| > 1 {
      JoinEnds(blocks[1..]);
    }
  }

  /** Cutting blocks that have no blank line, joined by one blank line, gives them back. */
  lemma {:induction false} SplitBlocksJoin(blocks: seq<string>)
    requires |blocks| > 0 && forall k :: 0 <= k < |blocks| ==> Solid(blocks[k])
    ensures SplitBlocks(Join(blocks, "\n\n")) == blocks
  {
    var b := blocks[0];
    if |blocks| == 1 {
      assert Join(blocks, "\n\n") == b;
      NoSeparatorInside(b, "");
      assert b + "" == b;
    } else {
      var t := Join(blocks[1..], "\n\n");
      assert Solid(blocks[1]);
      JoinEnds(blocks[1..]);
      var s := b + "\n\n" + t;
      NoSeparatorInside(b, "\n\n" + t);
      assert b + ("\n\n" + t) == s;
      SeparatorBetween(b, t);
      assert s[..|b|] == b && s[|b| + 2..] == t;
      SplitBlocksJoin(blocks[1..]);
    }
  }

  /** No separator starts inside a block with no blank line, whatever follows it. */
  lemma NoSeparatorInside(b: string, rest: string)
    requires Solid(b)
    ensures FirstSeparator(b + rest, 0) == FirstSeparator(b + rest, |b|)
  {
    var s := b + rest;
    forall p | 0 <= p < |b| ensures SeparatorAt(s, p).None? {
      if s[p] == '\n' {
        assert s[p] == b[p] && s[p + 1] == b[p + 1];
        assert SkipSpaces(s, p + 1) == p + 1;
        assert s[p + 1..p + 1] == [];
      }
    }
    SkipNoSeparator(s, 0, |b|);
  }

  lemma {:induction false} SkipNoSeparator(s: string, lo: nat, hi: nat)
    requires lo <= hi <= |s|
    requires forall p :: lo <= p < hi ==> SeparatorAt(s, p).None?
    ensures FirstSeparator(s, lo) == FirstSeparator(s, hi)
    decreases hi - lo
  {
    if lo < hi {
      SkipNoSeparator(s, lo + 1, hi);
    }
  }

  /** The blank line between two blocks is one separator, ending where the next block starts. */
  lemma SeparatorBetween(b: string, t: string)
    requires |t| > 0 && !IsSpace(t[0])
    ensures FirstSeparator(b + "\n\n" + t, |b|) == Some((|b|, |b| + 2))
  {
    var s := b + "\n\n" + t;
    assert s[|b|] == '\n' && s[|b| + 1] == '\n' && s[|b| + 2] == t[0];
    DoubleNewline(s, |b|);
  }

  /** Two line breaks followed by a non-space character form a separator of length two. */
  lemma DoubleNewline(s: string, p: nat)
    requires p + 2 < |s| && s[p] == '\n' && s[p + 1] == '\n' && !IsSpace(s[p + 2])
    ensures FirstSeparator(s, p) == Some((p, p + 2))
  {
    assert SkipSpaces(s, p + 2) == p + 2;
    assert SkipSpaces(s, p + 1) == p + 2;
    assert s[p + 1..p + 2] == "\n";
    assert LastIndexOfChar("\n", '\n') == Some(0);
    assert SeparatorAt(s, p) == Some(p + 2);
  }
}
