/** `JSON.stringify` of a flat object whose values are strings, as the proxy-URL builders
    use it for request headers: members in insertion order, strings quoted with the
    escapes of section 7 of RFC 8259 (lower-case hex for other control characters). */
module Json {

  import opened Wrappers
  import opened Text

  function HexLower(d: nat): (c: char)
    requires d < 16
  {
    if d < 10 then ('0' as int + d) as char else ('a' as int + d - 10) as char
  }

  function HexLowerValue(c: char): Option<nat> {
    if IsDigit(c) then Some(c as int - '0' as int)
    else if 'a' <= c <= 'f' then Some(c as int - 'a' as int + 10)
    else None
  }

  /** The escape `JSON.stringify` writes for one character of a string. */
  function EscapeChar(c: char): (e: string)
    ensures |e| > 0
  {
    if c == '"' then "\\\""
    else if c == '\\' then "\\\\"
    else if c == '\U{0008}' then "\\b"
    else if c == '\U{000C}' then "\\f"
    else if c == '\n' then "\\n"
    else if c == '\r' then "\\r"
    else if c == '\t' then "\\t"
    else if c < ' ' then "\\u00" + [HexLower(c as int / 16), HexLower(c as int % 16)]
    else [c]
  }

  function Escape(s: string): string {
    if |s| == 0 then "" else EscapeChar(s[0]) + Escape(s[1..])
  }

  /** A string literal. */
  function Quote(s: string): string {
    "\"" + Escape(s) + "\""
  }

  /** `JSON.stringify` of an object with string members, in insertion order. */
  function Stringify(members: seq<(string, string)>): string {
    "{" + Members(members) + "}"
  }

  function Members(members: seq<(string, string)>): string {
    if |members| == 0 then ""
    else if |members| == 1 then Quote(members[0].0) + ":" + Quote(members[0].1)
    else Quote(members[0].0) + ":" + Quote(members[0].1) + "," + Members(members[1..])
  }

  /** Reading the body of a string literal back (the inverse of `Escape`). */
  function Unescape(s: string): string {
    if |s| == 0 then ""
    else if s[0] == '\\' && |s| >= 2 && s[1] in {'"', '\\', 'b', 'f', 'n', 'r', 't'} then
      [match s[1] case '"' => '"' case '\\' => '\\' case 'b' => '\U{0008}' case 'f' => '\U{000C}'
                  case 'n' => '\n' case 'r' => '\r' case _ => '\t'] + Unescape(s[2..])
    else if s[0] == '\\' && |s| >= 6 && s[1] == 'u' && s[2] == '0' && s[3] == '0' &&
            HexLowerValue(s[4]).Some? && HexLowerValue(s[5]).Some? then
      [(HexLowerValue(s[4]).value * 16 + HexLowerValue(s[5]).value) as char] + Unescape(s[6..])
    else [s[0]] + Unescape(s[1..])
  }

  lemma UnescapeChar(c: char, rest: string)
    ensures Unescape(EscapeChar(c) + rest) == [c] + Unescape(rest)
  {
    var e := EscapeChar(c);
    if c < ' ' && c != '\U{0008}' && c != '\U{000C}' && c != '\n' && c != '\r' && c != '\t' {
      var n := c as int;
      assert HexLowerValue(HexLower(n / 16)) == Some(n / 16);
      assert HexLowerValue(HexLower(n % 16)) == Some(n % 16);
      assert (e + rest)[1] == 'u' && (e + rest)[4] == HexLower(n / 16) && (e + rest)[5] == HexLower(n % 16);
      assert (e + rest)[6..] == rest;
      assert (n / 16 * 16 + n % 16) as char == c;
    } else if |e| == 2 {
      assert (e + rest)[2..] == rest;
    } else {
      assert (e + rest)[1..] == rest;
    }
  }

  /** Escaping loses nothing: the escaped text reads back as the original string. */
  lemma {:induction false} UnescapeEscape(s: string)
    ensures Unescape(Escape(s)) == s
  {
    if |s| > 0 {
      UnescapeEscape(s[1..]);
      UnescapeChar(s[0], Escape(s[1..]));
      assert [s[0]] + s[1..] == s;
    }
  }

  /** An escaped string holds no raw double quote, no raw line break and no other control
      character, so the literal ends at its closing quote. */
  lemma {:induction false} EscapeSafe(s: string)
    ensures forall i :: 0 <= i < |Escape(s)| ==> Escape(s)[i] >= ' '
    ensures forall i :: 0 <= i < |Escape(s)| && Escape(s)[i] == '"' ==> i > 0 && Escape(s)[i - 1] == '\\'
  {
    if |s| > 0 {
      EscapeSafe(s[1..]);
      var e, rest := EscapeChar(s[0]), Escape(s[1..]);
      assert Escape(s) == e + rest;
      forall i | 0 <= i < |e + rest| ensures (e + rest)[i] >= ' ' {
        if i >= |e| { assert (e + rest)[i] == rest[i - |e|]; }
      }
      forall i | 0 <= i < |e + rest| && (e + rest)[i] == '"' ensures i > 0 && (e + rest)[i - 1] == '\\' {
        if i >= |e| {
          assert (e + rest)[i] == rest[i - |e|];
          if i > |e| { assert (e + rest)[i - 1] == rest[i - |e| - 1]; }
        }
      }
    }
  }
}
