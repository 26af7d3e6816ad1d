/** Integer <-> text conversions of the JavaScript runtime: `Number.prototype.toString`
    on integers, `padStart(2, '0')`, `parseInt` with and without radix 10, and
    `parseFloat` read as a number of milliseconds.  `NaN` is `None`. */
module Numbers {

  import opened Wrappers
  import opened Text

  function DigitChar(d: nat): (c: char)
    requires d < 10
    ensures IsDigit(c)
  {
    ['0', '1', '2', '3', '4', '5', '6', '7', '8', '9'][d]
  }

  function DigitValue(c: char): (d: nat)
    requires IsDigit(c)
    ensures d < 10 && DigitChar(d) == c
  {
    c as int - '0' as int
  }

  /** Decimal text of a natural number, without leading zeros. */
  function NatToString(n: nat): (s: string)
    ensures |s| > 0 && AllDigits(s)
    ensures |s| > 1 ==> s[0] != '0'
    decreases n
  {
    if n < 10 then [DigitChar(n)] else NatToString(n / 10) + [DigitChar(n % 10)]
  }

  /** `String(i)` for an integer. */
  function IntToString(i: int): string {
    if i < 0 then "-" + NatToString(-i) else NatToString(i)
  }

  /** `x % y` in JavaScript: the remainder takes the sign of the dividend. */
  function JsRem(x: int, y: int): (r: int)
    requires y > 0
    ensures x >= 0 ==> 0 <= r < y
    ensures x < 0 ==> -y < r <= 0
  {
    if x >= 0 then x % y else -((-x) % y)
  }

  /** `s.padStart(2, '0')`. */
  function PadStart2(s: string): (r: string)
    ensures |r| >= 2
  {
    if |s| == 0 then "00" else if |s| == 1 then "0" + s else s
  }

  /** For a value below 100, padding its text gives the two-digit field. */
  lemma PadStart2Pad2(n: nat)
    requires n < 100
    ensures PadStart2(IntToString(n)) == Pad2(n)
  {
    if n < 10 {
      assert NatToString(n) == [DigitChar(n)];
    }
  }

  /** A run of decimal digits reads back as its value with either `parseInt`. */
  lemma ParseIntDigits(d: string)
    requires |d| > 0 && AllDigits(d)
    ensures ParseInt(d) == Some(DecValue(d))
    ensures ParseDecimal(d) == Some(DecValue(d))
  {
    UnsignedDigits(d);
    DigitPrefixAll(d);
    assert !(|d| >= 2 && d[0] == '0' && (d[1] == 'x' || d[1] == 'X')) by {
      if |d| >= 2 { assert IsDigit(d[1]); }
    }
  }

  /** Digits carry no blanks and no sign. */
  lemma UnsignedDigits(d: string)
    requires |d| > 0 && AllDigits(d)
    ensures SplitSign(TrimStart(d)) == (1, d)
  {
    assert TrimStart(d) == d by { assert !IsSpace(d[0]); }
  }

  /** `String(n).padStart(2, '0')`. */
  function Pad2(n: nat): (s: string)
    ensures |s| >= 2 && AllDigits(s)
  {
    if n < 10 then ['0', DigitChar(n)] else NatToString(n)
  }

  /** A two-digit field reads back as its value. */
  lemma Pad2Value(n: nat)
    requires n < 100
    ensures |Pad2(n)| == 2 && DecValue(Pad2(n)) == n
  {
    var a, b := n / 10, n % 10;
    var s := Pad2(n);
    if n >= 10 {
      assert NatToString(a) == [DigitChar(a)];
    }
    assert s == [DigitChar(a), DigitChar(b)];
    assert s[..1][..0] == [];
    assert DecValue(s[..1]) == a by { assert DigitValue(s[0]) == a; }
    assert DecValue(s) == a * 10 + b by { assert DigitValue(s[1]) == b; }
  }

  /** The value of a string of decimal digits. */
  function DecValue(s: string): nat
    requires AllDigits(s)
  {
    if |s| == 0 then 0 else DecValue(s[..|s| - 1]) * 10 + DigitValue(s[|s| - 1])
  }

  lemma {:induction false} DecValueNatToString(n: nat)
    ensures DecValue(NatToString(n)) == n
    decreases n
  {
    var s := NatToString(n);
    if n >= 10 {
      DecValueNatToString(n / 10);
      assert s[..|s| - 1] == NatToString(n / 10);
    }
  }

  /** The last separator of "<a><c><digits>" is the one before the digits. */
  lemma {:induction false} LastSeparator(a: string, d: string, c: char)
    requires !IsDigit(c) && AllDigits(d)
    ensures LastIndexOfChar(a + [c] + d, c) == Some(|a|)
  {
    var s := a + [c] + d;
    var r := LastIndexOfChar(s, c);
    assert s[|a|] == c;
    assert r.Some?;
    assert forall j :: |a| < j < |s| ==> s[j] == d[j - |a| - 1];
    assert r.value <= |a|;
  }

  /** "<a><c><digits>" splits back into its prefix and its digits. */
  lemma SeparatedDigits(a1: string, d1: string, a2: string, d2: string, c: char)
    requires !IsDigit(c) && AllDigits(d1) && AllDigits(d2)
    requires a1 + [c] + d1 == a2 + [c] + d2
    ensures a1 == a2 && d1 == d2
  {
    var s := a1 + [c] + d1;
    LastSeparator(a1, d1, c);
    LastSeparator(a2, d2, c);
    assert a1 == s[..|a1|] && a2 == s[..|a2|];
    assert d1 == s[|a1| + 1..] && d2 == s[|a2| + 1..];
  }

  /** Printing is injective on natural numbers. */
  lemma NatToStringInjective(m: nat, n: nat)
    requires NatToString(m) == NatToString(n)
    ensures m == n
  {
    DecValueNatToString(m);
    DecValueNatToString(n);
  }

  /** The longest prefix of `s` made of characters satisfying `IsDigit`. */
  function DigitPrefix(s: string): (p: string)
    ensures p <= s && AllDigits(p)
    ensures |p| < |s| ==> !IsDigit(s[|p|])
  {
    if |s| > 0 && IsDigit(s[0]) then [s[0]] + DigitPrefix(s[1..]) else ""
  }

  lemma {:induction false} DigitPrefixAll(s: string)
    requires AllDigits(s)
    ensures DigitPrefix(s) == s
  {
    if |s| > 0 { DigitPrefixAll(s[1..]); }
  }

  predicate IsHexDigit(c: char) { IsDigit(c) || ('a' <= c <= 'f') || ('A' <= c <= 'F') }

  function HexDigitValue(c: char): (d: nat)
    requires IsHexDigit(c)
    ensures d < 16
  {
    if IsDigit(c) then DigitValue(c)
    else if 'a' <= c <= 'f' then c as int - 'a' as int + 10
    else c as int - 'A' as int + 10
  }

  function HexPrefix(s: string): (p: string)
    ensures p <= s && forall i :: 0 <= i < |p| ==> IsHexDigit(p[i])
  {
    if |s| > 0 && IsHexDigit(s[0]) then [s[0]] + HexPrefix(s[1..]) else ""
  }

  function HexValue(s: string): nat
    requires forall i :: 0 <= i < |s| ==> IsHexDigit(s[i])
  {
    if |s| == 0 then 0 else HexValue(s[..|s| - 1]) * 16 + HexDigitValue(s[|s| - 1])
  }

  /** Sign handling shared by `parseInt` and `parseFloat`: (-1 or 1, rest of the text). */
  /** The value with the sign `SplitSign` read applied. */
  function Signed(sign: int, v: int): int {
    if sign < 0 then -v else v
  }

  function SplitSign(t: string): (r: (int, string))
    ensures r.0 == 1 || r.0 == -1
    ensures |r.1| <= |t|
  {
    if |t| > 0 && t[0] == '-' then (-1, t[1..])
    else if |t| > 0 && t[0] == '+' then (1, t[1..])
    else (1, t)
  }

  /** `parseInt(s, 10)`: leading white space, an optional sign, then the longest run of
      decimal digits; `NaN` (None) when there is no digit. */
  function ParseDecimal(s: string): (r: Option<int>)
    ensures r.None? <==> |DigitPrefix(SplitSign(TrimStart(s)).1)| == 0
  {
    var (sign, u) := SplitSign(TrimStart(s));
    var d := DigitPrefix(u);
    if |d| == 0 then None else Some(Signed(sign, DecValue(d)))
  }

  /** `parseInt(s)` without a radix: as `ParseDecimal`, except that a `0x`/`0X` prefix
      after the sign switches to hexadecimal. */
  function ParseInt(s: string): (r: Option<int>)
  {
    var (sign, u) := SplitSign(TrimStart(s));
    if |u| >= 2 && u[0] == '0' && (u[1] == 'x' || u[1] == 'X') then
      var h := HexPrefix(u[2..]);
      if |h| == 0 then None else Some(Signed(sign, HexValue(h)))
    else
      var d := DigitPrefix(u);
      if |d| == 0 then None else Some(Signed(sign, DecValue(d)))
  }

  /** Printing a natural number and reading it back with either `parseInt` gives the number. */
  lemma {:induction false} ParseNatToString(n: nat)
    ensures ParseInt(NatToString(n)) == Some(n)
    ensures ParseDecimal(NatToString(n)) == Some(n)
  {
    var s := NatToString(n);
    assert TrimStart(s) == s;
    assert SplitSign(s) == (1, s);
    DigitPrefixAll(s);
    DecValueNatToString(n);
    assert !(|s| >= 2 && s[0] == '0');
  }

  /** A text that starts with digits reads as the value of that digit run, whatever follows. */
  lemma {:induction false} ParseDecimalPrefix(d: string, rest: string)
    requires |d| > 0 && AllDigits(d)
    requires |rest| > 0 ==> !IsDigit(rest[0])
    ensures ParseDecimal(d + rest) == Some(DecValue(d))
  {
    assert TrimStart(d + rest) == d + rest by { assert !IsSpace((d + rest)[0]); }
    assert SplitSign(d + rest) == (1, d + rest);
    DigitPrefixConcat(d, rest);
  }

  lemma {:induction false} DigitPrefixConcat(d: string, rest: string)
    requires AllDigits(d)
    requires |rest| > 0 ==> !IsDigit(rest[0])
    ensures DigitPrefix(d + rest) == d
  {
    if |d| > 0 {
      DigitPrefixConcat(d[1..], rest);
      assert (d + rest)[1..] == d[1..] + rest;
      assert [d[0]] + d[1..] == d;
    } else {
      assert d + rest == rest;
    }
  }

  /** `parseFloat(s) * 1000` for a number of seconds written with at most three fraction
      digits, as whole milliseconds: leading white space, an optional sign, integer
      digits, then optionally '.' and fraction digits (further fraction digits are
      dropped).  None is `NaN`: neither integer nor fraction digits. */
  function ParseSecondsToMs(s: string): (r: Option<int>)
  {
    var (sign, u) := SplitSign(TrimStart(s));
    var whole := DigitPrefix(u);
    var rest := u[|whole|..];
    var frac := if |rest| > 0 && rest[0] == '.' then DigitPrefix(rest[1..]) else "";
    if |whole| == 0 && |frac| == 0 then None
    else Some(Signed(sign, DecValue(whole) * 1000 + FractionMs(frac)))
  }

  /** The first three fraction digits as milliseconds ("5" is 500, "25" is 250). */
  function FractionMs(frac: string): (ms: nat)
    requires AllDigits(frac)
    ensures ms < 1000
  {
    var f := if |frac| >= 3 then frac[..3] else frac;
    var v := DecValue(f);
    DecValueBound(f);
    if |f| == 3 then v else if |f| == 2 then v * 10 else if |f| == 1 then v * 100 else 0
  }

  /** Three fraction digits are the milliseconds themselves. */
  lemma FractionMsThree(frac: string)
    requires |frac| == 3 && AllDigits(frac)
    ensures FractionMs(frac) == DecValue(frac)
  {
    assert frac[..3] == frac;
  }

  lemma {:induction false} DecValueBound(s: string)
    requires AllDigits(s)
    ensures |s| == 1 ==> DecValue(s) < 10
    ensures |s| == 2 ==> DecValue(s) < 100
    ensures |s| == 3 ==> DecValue(s) < 1000
  {
    if |s| > 0 { DecValueBound(s[..|s| - 1]); }
  }

  /** "s.mmm" (two-digit-free form: any digit count for s, exactly three for mmm) reads back
      as its value in milliseconds. */
  lemma {:induction false} ParseSecondsToMsOfFixed(secs: nat, ms: nat)
    requires ms < 1000
    ensures ParseSecondsToMs(NatToString(secs) + "." + Pad3(ms)) == Some(secs * 1000 + ms)
  {
    Pad3Value(ms);
    DecValueNatToString(secs);
    ParseSecondsToMsOfDigits(NatToString(secs), Pad3(ms), secs, ms);
  }

  /** Any run of second digits, '.', and three fraction digits. */
  lemma {:induction false} ParseSecondsToMsOfDigits(w: string, p: string, secs: nat, ms: nat)
    requires |w| > 0 && AllDigits(w) && DecValue(w) == secs
    requires |p| == 3 && AllDigits(p) && DecValue(p) == ms
    ensures ParseSecondsToMs(w + "." + p) == Some(secs * 1000 + ms)
  {
    var s := w + ("." + p);
    assert w + "." + p == s;
    assert TrimStart(s) == s by { assert !IsSpace(s[0]); }
    assert SplitSign(s) == (1, s) by { assert IsDigit(s[0]); }
    DigitPrefixConcat(w, "." + p);
    assert s[|w|..] == "." + p;
    assert ("." + p)[1..] == p;
    DigitPrefixAll(p);
    FractionMsThree(p);
  }

  /** Digits, '.', and at most three fraction digits. */
  lemma {:induction false} ParseSecondsToMsOfFraction(w: string, f: string)
    requires |w| > 0 && AllDigits(w) && AllDigits(f) && |f| <= 3
    ensures ParseSecondsToMs(w + "." + f) == Some(DecValue(w) * 1000 + FractionMs(f))
  {
    var s := w + ("." + f);
    assert w + "." + f == s;
    assert TrimStart(s) == s by { assert !IsSpace(s[0]); }
    assert SplitSign(s) == (1, s) by { assert IsDigit(s[0]); }
    DigitPrefixConcat(w, "." + f);
    assert s[|w|..] == "." + f;
    assert ("." + f)[1..] == f;
    DigitPrefixAll(f);
  }

  /** Digits alone read as whole seconds. */
  lemma {:induction false} ParseSecondsToMsWhole(w: string)
    requires |w| > 0 && AllDigits(w)
    ensures ParseSecondsToMs(w) == Some(DecValue(w) * 1000)
  {
    assert TrimStart(w) == w by { assert !IsSpace(w[0]); }
    assert SplitSign(w) == (1, w) by { assert IsDigit(w[0]); }
    DigitPrefixAll(w);
    assert w[|w|..] == "";
  }

  /** `String(n).padStart(3, '0')` for n < 1000. */
  function Pad3(n: nat): (s: string)
    requires n < 1000
    ensures |s| == 3 && AllDigits(s)
  {
    [DigitChar(n / 100), DigitChar(n % 100 / 10), DigitChar(n % 100 % 10)]
  }

  lemma Pad3Value(n: nat)
    requires n < 1000
    ensures DecValue(Pad3(n)) == n
  {
    var r := n % 100;
    ThreeDigitValue(n / 100, r / 10, r % 10);
    assert n == n / 100 * 100 + r;
    assert r == r / 10 * 10 + r % 10;
  }

  /** Three digit characters are worth their positional sum. */
  lemma ThreeDigitValue(a: nat, b: nat, c: nat)
    requires a < 10 && b < 10 && c < 10
    ensures DecValue([DigitChar(a), DigitChar(b), DigitChar(c)]) == a * 100 + b * 10 + c
  {
    var s := [DigitChar(a), DigitChar(b), DigitChar(c)];
    DigitCharValue(a);
    DigitCharValue(b);
    DigitCharValue(c);
    assert s[..2][..1] == s[..1] == [DigitChar(a)];
    assert s[..1][..0] == [];
    assert DecValue(s[..1]) == a;
    assert DecValue(s[..2]) == a * 10 + b;
    assert DecValue(s) == (a * 10 + b) * 10 + c;
  }

  lemma DigitCharValue(d: nat)
    requires d < 10
    ensures DigitValue(DigitChar(d)) == d
  {
  }
}
