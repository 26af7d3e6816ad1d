/** URL templates with `{name}` placeholders, filled by a chain of
    `template.replace('{name}', value)` calls.  Each call replaces only the first
    occurrence of its placeholder; when the literal text and the values hold no '{', that
    is exactly the placeholder piece of the template, which is what `ReplaceFirstFills`
    proves. */
module Templates {

  import opened Wrappers
  import opened Text

  /** `{` then a name without braces, then `}`. */
  predicate IsPlaceholder(w: string) {
    |w| >= 2 && w[0] == '{' && w[|w| - 1] == '}' &&
    forall i :: 0 < i < |w| - 1 ==> w[i] != '{' && w[i] != '}'
  }

  predicate NoBrace(s: string) { forall i :: 0 <= i < |s| ==> s[i] != '{' }

  /** A template read as literal text and placeholders, front to back. */
  datatype Template = End | Literal(text: string, rest: Template) | Slot(name: string, rest: Template)

  /** The text of the template's first part. */
  function HeadText(t: Template): string
    requires !t.End?
  {
    if t.Literal? then t.text else t.name
  }

  function Render(t: Template): string {
    if t.End? then "" else HeadText(t) + Render(t.rest)
  }

  /** The literal parts hold no '{' and the placeholder parts are placeholders. */
  predicate WellFormed(t: Template) {
    match t
    case End => true
    case Literal(text, rest) => NoBrace(text) && WellFormed(rest)
    case Slot(name, rest) => IsPlaceholder(name) && WellFormed(rest)
  }

  /** The template with its first `placeholder` part turned into the text `value`. */
  function FillFirst(t: Template, placeholder: string, value: string): Template {
    match t
    case End => End
    case Literal(text, rest) => Literal(text, FillFirst(rest, placeholder, value))
    case Slot(name, rest) =>
      if name == placeholder then Literal(value, rest) else Slot(name, FillFirst(rest, placeholder, value))
  }

  /** Filling keeps a template well formed when the value holds no '{'. */
  lemma {:induction false} FillFirstWellFormed(t: Template, placeholder: string, value: string)
    requires WellFormed(t) && NoBrace(value)
    ensures WellFormed(FillFirst(t, placeholder, value))
  {
    if !t.End? && !(t.Slot? && t.name == placeholder) {
      FillFirstWellFormed(t.rest, placeholder, value);
    }
  }

  /** `replace` with a placeholder on a rendered template is filling the template: the
      first placeholder part of that name becomes the value, and nothing else changes. */
  lemma {:induction false} ReplaceFirstFills(t: Template, placeholder: string, value: string)
    requires WellFormed(t) && IsPlaceholder(placeholder)
    ensures ReplaceFirst(Render(t), placeholder, value) == Render(FillFirst(t, placeholder, value))
  {
    if t.End? {
      ReplaceFirstNone("", placeholder, value);
    } else {
      var head := HeadText(t);
      var x := Render(t.rest);
      if t.Slot? && t.name == placeholder {
        assert OccursAt(head + x, placeholder, 0) by { assert (head + x)[..|head|] == head; }
        ReplaceFirstAt(head + x, placeholder, value, 0);
        assert (head + x)[|head|..] == x;
      } else {
        HeadSkipped(t, x, placeholder);
        SkipPrefix(head, x, placeholder, value);
        ReplaceFirstFills(t.rest, placeholder, value);
      }
    }
  }

  /** A placeholder does not start inside a first part that is not that placeholder. */
  lemma HeadSkipped(t: Template, x: string, placeholder: string)
    requires IsPlaceholder(placeholder) && WellFormed(t) && !t.End? && !(t.Slot? && t.name == placeholder)
    ensures forall j :: 0 <= j < |HeadText(t)| ==> !OccursAt(HeadText(t) + x, placeholder, j)
  {
    var h := HeadText(t);
    forall j | 0 <= j < |h| ensures !OccursAt(h + x, placeholder, j) {
      if j == 0 && t.Slot? {
        OtherPlaceholder(h, x, placeholder);
      } else if j + |placeholder| <= |h + x| {
        assert (h + x)[j..j + |placeholder|][0] == h[j] != '{';
      }
    }
  }

  /** A different placeholder does not start where a placeholder starts. */
  lemma OtherPlaceholder(h: string, x: string, p: string)
    requires IsPlaceholder(h) && IsPlaceholder(p) && h != p
    ensures !OccursAt(h + x, p, 0)
  {
    var s := h + x;
    if |p| <= |s| {
      if |p| < |h| {
        assert s[..|p|][|p| - 1] == h[|p| - 1] != '}';
      } else if |p| > |h| {
        assert s[..|p|][|h| - 1] == '}' != p[|h| - 1];
      } else {
        assert s[..|p|] == h;
      }
    }
  }

  /** A prefix where the pattern never starts is passed over by `replace`. */
  lemma SkipPrefix(u: string, x: string, pattern: string, value: string)
    requires |pattern| > 0
    requires forall j :: 0 <= j < |u| ==> !OccursAt(u + x, pattern, j)
    ensures ReplaceFirst(u + x, pattern, value) == u + ReplaceFirst(x, pattern, value)
  {
    ShiftOccurs(u, x, pattern);
    match IndexOf(x, pattern)
    case Some(k) => SkipPrefixFound(u, x, pattern, value, k);
    case None => SkipPrefixAbsent(u, x, pattern, value);
  }

  lemma SkipPrefixFound(u: string, x: string, pattern: string, value: string, k: nat)
    requires OccursAt(x, pattern, k) && forall j :: 0 <= j < k ==> !OccursAt(x, pattern, j)
    requires forall j :: 0 <= j < |u| + k ==> !OccursAt(u + x, pattern, j)
    ensures ReplaceFirst(u + x, pattern, value) == u + ReplaceFirst(x, pattern, value)
  {
    OccursAfter(u, x, pattern, k);
    ReplaceFirstAt(u + x, pattern, value, |u| + k);
    ReplaceFirstAt(x, pattern, value, k);
    SpliceAfter(u, x, k, |pattern|, value);
  }

  lemma OccursAfter(u: string, x: string, pattern: string, k: nat)
    requires OccursAt(x, pattern, k)
    ensures OccursAt(u + x, pattern, |u| + k)
  {
    assert (u + x)[|u| + k..|u| + k + |pattern|] == x[k..k + |pattern|];
  }

  /** Splicing a value into `u + x` past `u` is splicing it into `x`. */
  lemma SpliceAfter(u: string, x: string, k: nat, n: nat, value: string)
    requires k + n <= |x|
    ensures (u + x)[..|u| + k] + value + (u + x)[|u| + k + n..] == u + (x[..k] + value + x[k + n..])
  {
    var s, a, b := u + x, x[..k], x[k + n..];
    assert s[..|u| + k] == u + a;
    assert s[|u| + k + n..] == b;
    assert (u + a) + value + b == u + (a + value + b);
  }

  lemma SkipPrefixAbsent(u: string, x: string, pattern: string, value: string)
    requires !Contains(x, pattern)
    requires forall j :: 0 <= j < |u| ==> !OccursAt(u + x, pattern, j)
    requires forall j :: |u| <= j ==> (OccursAt(u + x, pattern, j) <==> OccursAt(x, pattern, j - |u|))
    ensures ReplaceFirst(u + x, pattern, value) == u + ReplaceFirst(x, pattern, value)
  {
    var s := u + x;
    assert !Contains(s, pattern) by {
      forall i | 0 <= i <= |s| ensures !OccursAt(s, pattern, i) {
        if i >= |u| { assert !OccursAt(x, pattern, i - |u|); }
      }
    }
    ReplaceFirstNone(s, pattern, value);
    ReplaceFirstNone(x, pattern, value);
  }

  /** Occurrences in `x` are occurrences in `u + x`, shifted by `|u|`. */
  lemma ShiftOccurs(u: string, x: string, pattern: string)
    ensures forall j :: |u| <= j ==> (OccursAt(u + x, pattern, j) <==> OccursAt(x, pattern, j - |u|))
  {
    var s := u + x;
    forall j | |u| <= j ensures OccursAt(s, pattern, j) <==> OccursAt(x, pattern, j - |u|) {
      if j + |pattern| <= |s| {
        assert s[j..j + |pattern|] == x[j - |u|..j - |u| + |pattern|];
      }
    }
  }

  /** `template.replace(p1, v1).replace(p2, v2)…`. */
  function ReplaceChain(template: string, values: seq<(string, string)>): string
    decreases |values|
  {
    if |values| == 0 then template
    else ReplaceChain(ReplaceFirst(template, values[0].0, values[0].1), values[1..])
  }

  /** Filling a template value by value, as `FillFirst` does. */
  function FillChain(t: Template, values: seq<(string, string)>): Template
    decreases |values|
  {
    if |values| == 0 then t
    else FillChain(FillFirst(t, values[0].0, values[0].1), values[1..])
  }

  /** The `replace` chain fills the template's placeholders one by one, each at its first
      piece only, when the template's text and the values hold no '{'. */
  lemma {:induction false} ReplaceChainFills(t: Template, values: seq<(string, string)>)
    requires WellFormed(t)
    requires forall k :: 0 <= k < |values| ==> IsPlaceholder(values[k].0) && NoBrace(values[k].1)
    ensures ReplaceChain(Render(t), values) == Render(FillChain(t, values))
    decreases |values|
  {
    if |values| > 0 {
      ReplaceFirstFills(t, values[0].0, values[0].1);
      FillFirstWellFormed(t, values[0].0, values[0].1);
      assert forall k :: 0 <= k < |values[1..]| ==> values[1..][k] == values[k + 1];
      ReplaceChainFills(FillFirst(t, values[0].0, values[0].1), values[1..]);
    }
  }

  /** The value the first pair named `name` gives, if any. */
  function Lookup(values: seq<(string, string)>, name: string): Option<string>
    decreases |values|
  {
    if |values| == 0 then None
    else if values[0].0 == name then Some(values[0].1)
    else Lookup(values[1..], name)
  }

  /** The value at the first pair of a name is the one `Lookup` gives. */
  lemma {:induction false} LookupFirst(values: seq<(string, string)>, name: string, k: nat)
    requires k < |values| && values[k].0 == name
    requires forall j :: 0 <= j < k ==> values[j].0 != name
    ensures Lookup(values, name) == Some(values[k].1)
    decreases k
  {
    if k > 0 {
      LookupFirst(values[1..], name, k - 1);
    }
  }

  predicate HasSlot(t: Template, name: string) {
    match t
    case End => false
    case Literal(_, rest) => HasSlot(rest, name)
    case Slot(n, rest) => n == name || HasSlot(rest, name)
  }

  /** No placeholder name occurs twice. */
  predicate DistinctSlots(t: Template) {
    match t
    case End => true
    case Literal(_, rest) => DistinctSlots(rest)
    case Slot(n, rest) => !HasSlot(rest, n) && DistinctSlots(rest)
  }

  /** Every placeholder part with a value becomes that value, all at once. */
  function Substitute(t: Template, values: seq<(string, string)>): Template {
    match t
    case End => End
    case Literal(text, rest) => Literal(text, Substitute(rest, values))
    case Slot(n, rest) =>
      match Lookup(values, n)
      case Some(v) => Literal(v, Substitute(rest, values))
      case None => Slot(n, Substitute(rest, values))
  }

  /** On a template whose placeholder names are distinct, filling value by value is
      substituting all the values at once, the first value of a name winning. */
  lemma {:induction false} FillChainSubstitutes(t: Template, values: seq<(string, string)>)
    requires DistinctSlots(t)
    ensures FillChain(t, values) == Substitute(t, values)
    decreases |values|
  {
    if |values| == 0 {
      SubstituteNothing(t, values);
    } else {
      var (p, v) := values[0];
      FillFirstDistinct(t, p, v);
      FillChainSubstitutes(FillFirst(t, p, v), values[1..]);
      FillFirstSubstitutes(t, values);
    }
  }

  lemma {:induction false} SubstituteNothing(t: Template, values: seq<(string, string)>)
    requires |values| == 0
    ensures Substitute(t, values) == t
  {
    if !t.End? {
      SubstituteNothing(t.rest, values);
    }
  }

  lemma {:induction false} FillFirstDistinct(t: Template, p: string, v: string)
    requires DistinctSlots(t)
    ensures DistinctSlots(FillFirst(t, p, v))
    ensures forall n :: HasSlot(FillFirst(t, p, v), n) ==> HasSlot(t, n)
  {
    if !t.End? && !(t.Slot? && t.name == p) {
      FillFirstDistinct(t.rest, p, v);
    }
  }

  /** Substituting the remaining values after filling the first is substituting them all. */
  lemma {:induction false} FillFirstSubstitutes(t: Template, values: seq<(string, string)>)
    requires DistinctSlots(t) && |values| > 0
    ensures Substitute(FillFirst(t, values[0].0, values[0].1), values[1..]) == Substitute(t, values)
  {
    var (p, v) := values[0];
    match t
    case End =>
    case Literal(_, rest) => FillFirstSubstitutes(rest, values);
    case Slot(n, rest) =>
      if n == p {
        WithoutSlot(rest, values);
      } else {
        FillFirstSubstitutes(rest, values);
      }
  }

  /** The first value does not matter to a template without its placeholder. */
  lemma {:induction false} WithoutSlot(t: Template, values: seq<(string, string)>)
    requires |values| > 0 && !HasSlot(t, values[0].0)
    ensures Substitute(t, values[1..]) == Substitute(t, values)
  {
    if !t.End? {
      WithoutSlot(t.rest, values);
    }
  }

}
