/** The playback-speed control of the player's settings pop-up: eight fixed speeds from
    0.25 to 2, stepped one option up or down.  Speeds are counted in quarters (1 is 0.25,
    4 is normal speed); any count outside the list stands for a speed the list does not
    hold. */
module PlayerSpeed {

  import opened Wrappers
  import opened Text
  import opened Numbers

  /** `speedOptions`, in quarters. */
  const SpeedOptions: seq<int> := [1, 2, 3, 4, 5, 6, 7, 8]

  /** `speedOptions.indexOf(playbackSpeed)`: the first position holding the speed, -1 if
      none does. */
  function SpeedIndex(speed: int): (i: int)
    ensures -1 <= i < |SpeedOptions|
    ensures i == -1 <==> speed !in SpeedOptions
    ensures i >= 0 ==> SpeedOptions[i] == speed && forall j :: 0 <= j < i ==> SpeedOptions[j] != speed
  {
    FirstIndex(SpeedOptions, speed)
  }

  function FirstIndex(xs: seq<int>, x: int): (i: int)
    ensures -1 <= i < |xs|
    ensures i == -1 <==> x !in xs
    ensures i >= 0 ==> xs[i] == x && forall j :: 0 <= j < i ==> xs[j] != x
  {
    if |xs| == 0 then -1
    else if xs[0] == x then 0
    else
      var k := FirstIndex(xs[1..], x);
      if k == -1 then -1 else k + 1
  }

  /** `handleSpeedIncrease`: the speed passed to `onSpeedChange`, if it is called. */
  function SpeedIncrease(speed: int): Option<int> {
    var i := SpeedIndex(speed);
    if i < |SpeedOptions| - 1 then Some(SpeedOptions[i + 1]) else None
  }

  /** `handleSpeedDecrease`. */
  function SpeedDecrease(speed: int): Option<int> {
    var i := SpeedIndex(speed);
    if i > 0 then Some(SpeedOptions[i - 1]) else None
  }

  /** The "Faster" button's `disabled`. */
  predicate IncreaseDisabled(speed: int) { SpeedIndex(speed) >= |SpeedOptions| - 1 }

  /** The "Slower" button's `disabled`. */
  predicate DecreaseDisabled(speed: int) { SpeedIndex(speed) <= 0 }

  /** A disabled button is exactly one whose handler would do nothing. */
  lemma DisabledMeansInert(speed: int)
    ensures IncreaseDisabled(speed) <==> SpeedIncrease(speed).None?
    ensures DecreaseDisabled(speed) <==> SpeedDecrease(speed).None?
  {
  }

  /** A listed speed moves one quarter up or down, within 0.25 .. 2; a speed the list does
      not hold goes up to 0.25 and does not go down. */
  lemma {:induction false} SpeedSteps(speed: int)
    ensures 1 <= speed < 8 ==> SpeedIncrease(speed) == Some(speed + 1)
    ensures speed == 8 ==> SpeedIncrease(speed) == None
    ensures 1 < speed <= 8 ==> SpeedDecrease(speed) == Some(speed - 1)
    ensures speed == 1 ==> SpeedDecrease(speed) == None
    ensures !(1 <= speed <= 8) ==> SpeedIncrease(speed) == Some(1) && SpeedDecrease(speed) == None
  {
    if 1 <= speed <= 8 {
      SpeedInList(speed);
    } else {
      assert speed !in SpeedOptions;
    }
  }

  /** A speed in the list stands at position speed - 1. */
  lemma SpeedInList(speed: int)
    requires 1 <= speed <= 8
    ensures SpeedIndex(speed) == speed - 1
    ensures forall j :: 0 <= j < |SpeedOptions| ==> SpeedOptions[j] == j + 1
  {
    assert SpeedOptions[speed - 1] == speed;
    FirstIndexAt(SpeedOptions, speed - 1);
  }

  /** In a list whose earlier entries differ from entry `i`, that entry is found at `i`. */
  lemma FirstIndexAt(xs: seq<int>, i: nat)
    requires i < |xs| && forall j :: 0 <= j < i ==> xs[j] != xs[i]
    ensures FirstIndex(xs, xs[i]) == i
  {
    assert xs[i] in xs;
  }

  /** Slower undoes Faster, and Faster undoes Slower, wherever the first step is taken. */
  lemma SpeedStepsUndo(speed: int)
    ensures SpeedIncrease(speed).Some? && speed in SpeedOptions ==>
      SpeedDecrease(SpeedIncrease(speed).value) == Some(speed)
    ensures SpeedDecrease(speed).Some? ==> SpeedIncrease(SpeedDecrease(speed).value) == Some(speed)
  {
    SpeedSteps(speed);
    if SpeedIncrease(speed).Some? { SpeedSteps(SpeedIncrease(speed).value); }
    if SpeedDecrease(speed).Some? { SpeedSteps(SpeedDecrease(speed).value); }
  }

  /** The fraction digits of a quarter: "", "25", "5", "75". */
  function QuarterDigits(r: nat): string
    requires r < 4
  {
    if r == 1 then "25" else if r == 2 then "5" else if r == 3 then "75" else ""
  }

  /** What follows the whole number: nothing, or '.' and the fraction digits. */
  function QuarterSuffix(r: nat): string
    requires r < 4
  {
    if r == 0 then "" else "." + QuarterDigits(r)
  }

  /** The decimal text of `quarters / 4` as JavaScript prints it: no trailing zeros, no
      '.' for a whole number. */
  function QuarterText(quarters: nat): string {
    NatToString(quarters / 4) + QuarterSuffix(quarters % 4)
  }

  /** `getSpeedLabel(speed)`: "1x" for normal speed, "{speed}x" otherwise. */
  function SpeedLabel(quarters: nat): string {
    if quarters == 4 then "1x" else QuarterText(quarters) + "x"
  }

  /** The label is the speed's number followed by 'x' (normal speed too). */
  lemma SpeedLabelText(quarters: nat)
    ensures SpeedLabel(quarters) == QuarterText(quarters) + "x"
  {
    if quarters == 4 {
      assert NatToString(1) == "1";
    }
  }

  /** The number in the label reads back as the speed, in thousandths (a quarter is 250). */
  lemma QuarterTextValue(quarters: nat)
    ensures ParseSecondsToMs(QuarterText(quarters)) == Some(quarters * 250)
  {
    var w, r := NatToString(quarters / 4), quarters % 4;
    DecValueNatToString(quarters / 4);
    QuarterSuffixValue(w, r);
    QuartersSplit(quarters, DecValue(w), r);
  }

  lemma QuartersSplit(quarters: nat, whole: int, r: int)
    requires whole == quarters / 4 && r == quarters % 4
    ensures whole * 1000 + r * 250 == quarters * 250
  {
  }

  lemma QuarterSuffixValue(w: string, r: nat)
    requires |w| > 0 && AllDigits(w) && r < 4
    ensures ParseSecondsToMs(w + QuarterSuffix(r)) == Some(DecValue(w) * 1000 + r * 250)
  {
    if r == 0 {
      assert w + QuarterSuffix(r) == w;
      ParseSecondsToMsWhole(w);
    } else {
      QuarterFractionValue(w, r);
    }
  }

  lemma QuarterFractionValue(w: string, r: nat)
    requires |w| > 0 && AllDigits(w) && 0 < r < 4
    ensures ParseSecondsToMs(w + QuarterSuffix(r)) == Some(DecValue(w) * 1000 + r * 250)
  {
    var f := QuarterDigits(r);
    assert w + QuarterSuffix(r) == w + "." + f;
    QuarterDigitsValue(r);
    ParseSecondsToMsOfFraction(w, f);
  }

  lemma QuarterDigitsValue(r: nat)
    requires 0 < r < 4
    ensures AllDigits(QuarterDigits(r)) && |QuarterDigits(r)| <= 3
    ensures FractionMs(QuarterDigits(r)) == r * 250
  {
    var f := QuarterDigits(r);
    if r == 2 {
      assert f == "5" && f[..0] == [];
      assert DecValue(f) == 5;
    } else {
      assert |f| == 2 && f[..1] == [f[0]] && f[..1][..0] == [];
      assert DecValue(f[..1]) == DigitValue(f[0]);
      assert DecValue(f) == DigitValue(f[0]) * 10 + DigitValue(f[1]);
    }
  }
}
