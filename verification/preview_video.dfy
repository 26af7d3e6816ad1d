/** The seek-bar preview of the custom player: the time label under the preview, and the
    choice of the lowest quality stream to load into the preview video. */
module PreviewVideo {

  import opened Wrappers
  import opened Text
  import opened Numbers
  import opened Sorting

  // ---- formatTime ----

  /** `formatTime(seconds)`: whole minutes, ':', then the remaining whole seconds with a
      leading '0' below 10.  For a time of at least zero both floors depend only on the
      whole seconds, which is what `seconds` holds here. */
  function FormatTime(seconds: nat): string {
    var remaining := seconds % 60;
    NatToString(seconds / 60) + ":" + (if remaining < 10 then "0" else "") + NatToString(remaining)
  }

  /** The label is minutes and a two-digit seconds field, and reading both back gives the
      time. */
  lemma FormatTimeRoundTrip(seconds: nat)
    ensures var parts := Split(FormatTime(seconds), ':');
      |parts| == 2 && |parts[1]| == 2 &&
      ParseDecimal(parts[0]) == Some(seconds / 60) && ParseDecimal(parts[1]) == Some(seconds % 60) &&
      (seconds / 60) * 60 + seconds % 60 == seconds
  {
    var m, s := seconds / 60, seconds % 60;
    var a := NatToString(m);
    var b := (if s < 10 then "0" else "") + NatToString(s);
    PadStart2Pad2(s);
    assert b == PadStart2(IntToString(s)) by {
      if s >= 10 {
        assert |NatToString(s)| > 1 by { assert NatToString(s) == NatToString(s / 10) + [DigitChar(s % 10)]; }
      } else {
        assert NatToString(s) == [DigitChar(s)];
      }
    }
    Pad2Value(s);
    assert FormatTime(seconds) == a + [':'] + b;
    DigitsNoColon(a);
    DigitsNoColon(b);
    SplitTwo(a, b, ':');
    ParseNatToString(m);
    ParseIntDigits(b);
  }

  lemma DigitsNoColon(d: string)
    requires AllDigits(d)
    ensures forall i :: 0 <= i < |d| ==> d[i] != ':'
  {
  }

  // ---- getLowestQualityVideoLink ----

  /** A quality option; a missing `name`, `url` or `link` is "". */
  datatype QualityOption = QualityOption(name: string, url: string, link: string)

  /** `/\d+p/.test(name)`: some 'p' follows a digit. */
  predicate HasResolution(name: string) {
    exists j :: 1 <= j < |name| && name[j] == 'p' && IsDigit(name[j - 1])
  }

  /** Kept by the filter: the lower-cased name is not "auto" and names a resolution (the
      extra `includes('144p')` test is implied by the pattern). */
  predicate Eligible(option: QualityOption) {
    var name := ToLower(option.name);
    name != "auto" && HasResolution(name)
  }

  /** The options the filter keeps, in order. */
  function Eligibles(options: seq<QualityOption>): (r: seq<QualityOption>)
    ensures |r| <= |options|
    ensures forall x :: x in r <==> x in options && Eligible(x)
  {
    if |options| == 0 then []
    else (if Eligible(options[0]) then [options[0]] else []) + Eligibles(options[1..])
  }

  /** Filtering distributes over concatenation: the kept options keep their relative order. */
  lemma {:induction false} EligiblesAppend(a: seq<QualityOption>, b: seq<QualityOption>)
    ensures Eligibles(a + b) == Eligibles(a) + Eligibles(b)
  {
    if |a| == 0 {
      assert a + b == b;
    } else {
      assert (a + b)[1..] == a[1..] + b;
      EligiblesAppend(a[1..], b);
    }
  }

  /** The filter applied one option at a time: an empty list keeps nothing, and a further
      option is appended exactly when it is eligible. */
  lemma EligiblesSnoc(options: seq<QualityOption>, o: QualityOption)
    ensures Eligibles([]) == []
    ensures Eligibles(options + [o]) == Eligibles(options) + (if Eligible(o) then [o] else [])
  {
    EligiblesAppend(options, [o]);
    assert [o][1..] == [];
  }

  /** `parseInt(name.match(/\d+/)?.[0]) || 0`: the first run of digits, or 0. */
  function FirstNumber(name: string): nat {
    if |name| == 0 then 0
    else if IsDigit(name[0]) then DecValue(DigitPrefix(name))
    else FirstNumber(name[1..])
  }

  function ResolutionKey(option: QualityOption): int {
    FirstNumber(option.name)
  }

  /** The first option of the ascending sort by resolution number. */
  function Lowest(eligible: seq<QualityOption>): QualityOption
    requires |eligible| > 0
  {
    SortDescLength(eligible, Negated(ResolutionKey));
    SortAsc(eligible, ResolutionKey)[0]
  }

  /** The link of the chosen option: its `url` for a native embed; otherwise its `url`,
      falling back to its `link`; None is `null`. */
  function LinkOf(option: QualityOption, isNativeEmbed: bool): Option<string> {
    if option.url != "" then Some(option.url)
    else if !isNativeEmbed && option.link != "" then Some(option.link)
    else None
  }

  /** `getLowestQualityVideoLink()` over `qualityOptions` (None is a missing list). */
  function LowestQualityVideoLink(qualityOptions: Option<seq<QualityOption>>, isNativeEmbed: bool): Option<string> {
    if qualityOptions.None? || |qualityOptions.value| == 0 then None
    else
      var eligible := Eligibles(qualityOptions.value);
      if |eligible| == 0 then None
      else LinkOf(Lowest(eligible), isNativeEmbed)
  }

  /** The sort puts first the earliest option with the smallest resolution number. */
  lemma {:induction false} LowestIsFirstSmallest(eligible: seq<QualityOption>)
    requires |eligible| > 0
    ensures exists j :: (0 <= j < |eligible| && eligible[j] == Lowest(eligible) &&
                         forall i :: 0 <= i < j ==> ResolutionKey(eligible[i]) > ResolutionKey(Lowest(eligible)))
    ensures forall i :: 0 <= i < |eligible| ==> ResolutionKey(Lowest(eligible)) <= ResolutionKey(eligible[i])
  {
    var key := ResolutionKey;
    var neg := Negated(key);
    var sorted := SortAsc(eligible, key);
    SortDescLength(eligible, neg);
    SortAscProps(eligible, key);
    var low := sorted[0];
    var m := key(low);
    forall i | 0 <= i < |eligible| ensures m <= key(eligible[i]) {
      assert eligible[i] in multiset(sorted);
      var k :| 0 <= k < |sorted| && sorted[k] == eligible[i];
      if k > 0 { assert key(sorted[0]) <= key(sorted[k]); }
    }
    assert low in multiset(eligible);
    var j0 :| 0 <= j0 < |eligible| && eligible[j0] == low;
    assert neg(low) == -m;
    var j := FirstWithKey(eligible, neg, -m, 0, j0);
    WithKeyFirst(eligible, neg, -m, j);
    WithKeyFirst(sorted, neg, -m, 0);
    assert WithKey(sorted, neg, -m) == WithKey(eligible, neg, -m);
    forall i | 0 <= i < j ensures key(eligible[i]) > m {
      assert neg(eligible[i]) != -m;
    }
  }

  /** The first position from `start` on whose key is `k`, given one at `j0`. */
  lemma {:induction false} FirstWithKey<T>(s: seq<T>, key: T -> int, k: int, start: nat, j0: nat) returns (j: nat)
    requires start <= j0 < |s| && key(s[j0]) == k
    requires forall i :: 0 <= i < start ==> key(s[i]) != k
    ensures j <= j0 && key(s[j]) == k && forall i :: 0 <= i < j ==> key(s[i]) != k
    decreases j0 - start
  {
    if key(s[start]) == k {
      j := start;
    } else {
      j := FirstWithKey(s, key, k, start + 1, j0);
    }
  }

  /** The elements with key `k` start with the first element that has it. */
  lemma {:induction false} WithKeyFirst<T>(s: seq<T>, key: T -> int, k: int, j: nat)
    requires j < |s| && key(s[j]) == k && forall i :: 0 <= i < j ==> key(s[i]) != k
    ensures |WithKey(s, key, k)| > 0 && WithKey(s, key, k)[0] == s[j]
    decreases j
  {
    if j > 0 {
      WithKeyFirst(s[1..], key, k, j - 1);
    }
  }

  /** Without options, or with none naming a resolution, there is no link; otherwise the
      link is that of the option the sort puts first (see `LowestIsFirstSmallest`). */
  lemma LowestQualityVideoLinkProps(qualityOptions: Option<seq<QualityOption>>, isNativeEmbed: bool)
    ensures qualityOptions.None? ==> LowestQualityVideoLink(qualityOptions, isNativeEmbed) == None
    ensures qualityOptions.Some? && (forall i :: 0 <= i < |qualityOptions.value| ==> !Eligible(qualityOptions.value[i])) ==>
      LowestQualityVideoLink(qualityOptions, isNativeEmbed) == None
    ensures qualityOptions.Some? && (exists i :: 0 <= i < |qualityOptions.value| && Eligible(qualityOptions.value[i])) ==>
      |Eligibles(qualityOptions.value)| > 0 &&
      LowestQualityVideoLink(qualityOptions, isNativeEmbed) == LinkOf(Lowest(Eligibles(qualityOptions.value)), isNativeEmbed)
  {
    if qualityOptions.Some? {
      var eligible := Eligibles(qualityOptions.value);
      if exists i :: 0 <= i < |qualityOptions.value| && Eligible(qualityOptions.value[i]) {
        var i :| 0 <= i < |qualityOptions.value| && Eligible(qualityOptions.value[i]);
        assert qualityOptions.value[i] in eligible;
      } else {
        NoneEligible(qualityOptions.value);
      }
    }
  }

  lemma {:induction false} NoneEligible(options: seq<QualityOption>)
    requires forall i :: 0 <= i < |options| ==> !Eligible(options[i])
    ensures Eligibles(options) == []
  {
    if |options| > 0 {
      assert !Eligible(options[0]);
      NoneEligible(options[1..]);
    }
  }
}
