/** Reading the attributes of an `#EXT-X-STREAM-INF` tag (section 4.3.4.2 of RFC 8216)
    the way the player code does it, with the regular expressions
    `/RESOLUTION=(\d+)x(\d+)/` and `/BANDWIDTH=(\d+)/`: the leftmost place where the
    pattern matches, with greedy digit runs. */
module HlsAttributes {

  import opened Wrappers
  import opened Text
  import opened Numbers

  datatype Resolution = Resolution(width: string, height: string)

  /** The pattern `RESOLUTION=(\d+)x(\d+)` matches at position `p`. */
  function ResolutionAt(s: string, p: nat): (r: Option<Resolution>)
    ensures r.Some? ==> |r.value.width| > 0 && |r.value.height| > 0
    ensures r.Some? ==> AllDigits(r.value.width) && AllDigits(r.value.height)
  {
    if p <= |s| && StartsWith(s[p..], "RESOLUTION=") then
      var rest := s[p + 11..];
      var w := DigitPrefix(rest);
      if |w| > 0 && |w| < |rest| && rest[|w|] == 'x' then
        var h := DigitPrefix(rest[|w| + 1..]);
        if |h| > 0 then Some(Resolution(w, h)) else None
      else None
    else None
  }

  /** The leftmost match of the resolution pattern at or after `from`. */
  function FindResolution(s: string, from: nat): (r: Option<Resolution>)
    ensures r.Some? ==> |r.value.width| > 0 && |r.value.height| > 0
    ensures r.Some? ==> AllDigits(r.value.width) && AllDigits(r.value.height)
    decreases |s| - from
  {
    if from > |s| then None
    else if ResolutionAt(s, from).Some? then ResolutionAt(s, from)
    else FindResolution(s, from + 1)
  }

  /** The search finds the leftmost match, and finds none only when there is none. */
  lemma {:induction false} FindResolutionLeftmost(s: string, from: nat)
    ensures FindResolution(s, from).Some? ==>
      exists p :: from <= p <= |s| && ResolutionAt(s, p) == FindResolution(s, from) &&
                  (forall q :: from <= q < p ==> ResolutionAt(s, q).None?)
    ensures FindResolution(s, from).None? ==> forall q :: from <= q ==> ResolutionAt(s, q).None?
  {
    FindResolutionNone(s, from);
    if FindResolution(s, from).Some? {
      FindResolutionFirst(s, from);
    }
  }

  lemma {:induction false} FindResolutionNone(s: string, from: nat)
    ensures FindResolution(s, from).None? ==> forall q :: from <= q ==> ResolutionAt(s, q).None?
    decreases |s| - from
  {
    if from <= |s| && ResolutionAt(s, from).None? {
      FindResolutionNone(s, from + 1);
    }
  }

  lemma {:induction false} FindResolutionFirst(s: string, from: nat)
    requires FindResolution(s, from).Some?
    ensures exists p :: from <= p <= |s| && ResolutionAt(s, p) == FindResolution(s, from) &&
                        (forall q :: from <= q < p ==> ResolutionAt(s, q).None?)
    decreases |s| - from
  {
    if ResolutionAt(s, from).Some? {
      assert ResolutionAt(s, from) == FindResolution(s, from);
    } else {
      FindResolutionFirst(s, from + 1);
      var p :| from + 1 <= p <= |s| && ResolutionAt(s, p) == FindResolution(s, from + 1) &&
               (forall q :: from + 1 <= q < p ==> ResolutionAt(s, q).None?);
      assert forall q :: from <= q < p ==> ResolutionAt(s, q).None?;
    }
  }

  /** The pattern `BANDWIDTH=(\d+)` matches at position `p`; the captured digits. */
  function BandwidthAt(s: string, p: nat): (r: Option<string>)
    ensures r.Some? ==> |r.value| > 0 && AllDigits(r.value)
  {
    if p <= |s| && StartsWith(s[p..], "BANDWIDTH=") then
      var d := DigitPrefix(s[p + 10..]);
      if |d| > 0 then Some(d) else None
    else None
  }

  /** The leftmost match of the bandwidth pattern at or after `from` (this may be the tail
      of an `AVERAGE-BANDWIDTH` attribute that comes first). */
  function FindBandwidth(s: string, from: nat): (r: Option<string>)
    ensures r.Some? ==> |r.value| > 0 && AllDigits(r.value)
    decreases |s| - from
  {
    if from > |s| then None
    else if BandwidthAt(s, from).Some? then BandwidthAt(s, from)
    else FindBandwidth(s, from + 1)
  }

  /** The search finds the leftmost match, and finds none only when there is none. */
  lemma {:induction false} FindBandwidthLeftmost(s: string, from: nat)
    ensures FindBandwidth(s, from).Some? ==>
      exists p :: from <= p <= |s| && BandwidthAt(s, p) == FindBandwidth(s, from) &&
                  (forall q :: from <= q < p ==> BandwidthAt(s, q).None?)
    ensures FindBandwidth(s, from).None? ==> forall q :: from <= q ==> BandwidthAt(s, q).None?
    decreases |s| - from
  {
    if from <= |s| {
      if BandwidthAt(s, from).Some? {
        assert BandwidthAt(s, from) == FindBandwidth(s, from);
      } else {
        FindBandwidthLeftmost(s, from + 1);
        if FindBandwidth(s, from + 1).Some? {
          var p :| from + 1 <= p <= |s| && BandwidthAt(s, p) == FindBandwidth(s, from + 1) &&
                   (forall q :: from + 1 <= q < p ==> BandwidthAt(s, q).None?);
          assert forall q :: from <= q < p ==> BandwidthAt(s, q).None?;
        }
      }
    }
  }

  /** `(bandwidth / 1000000).toFixed(1)` in exact arithmetic: tenths of a megabit,
      rounded half up. */
  function MbpsText(bandwidth: nat): (t: string)
  {
    var tenths := (bandwidth + 50000) / 100000;
    NatToString(tenths / 10) + "." + [DigitChar(tenths % 10)]
  }
}
