/** The browse home page: the continue-watching row keeps the latest record per title, a
    category row shows a growing prefix of its items, and continue-watching cards are keyed
    by title, season and episode. */
module BrowseHome {

  import opened Wrappers
  import opened Text
  import opened Numbers
  import opened ProgressManager

  /** A stored number in a template literal; a stored `null` prints as "null". */
  function NumText(n: Num): string {
    if n.Some? then IntToString(n.value) else "null"
  }

  /** `${item.id}-${item.mediaType}`. */
  function ShowKey(e: Entry): string {
    NumText(e.id) + "-" + e.mediaType
  }

  /** The timestamp in `>`: a stored `null` compares as 0. */
  function Stamp(e: Entry): int {
    if e.timestamp.Some? then e.timestamp.value else 0
  }

  // ---- the continue-watching reduce ----

  /** The index of the record the reduce holds for `key` after the given records: a record
      replaces the held one only when its timestamp is strictly larger. */
  function Held(items: seq<Entry>, key: string): (r: Option<nat>)
    ensures r.Some? ==> r.value < |items| && ShowKey(items[r.value]) == key
  {
    if |items| == 0 then None
    else
      var prev := Held(items[..|items| - 1], key);
      var last := |items| - 1;
      if ShowKey(items[last]) == key && (prev.None? || Stamp(items[last]) > Stamp(items[prev.value])) then Some(last)
      else prev
  }

  /** The keys of the accumulator object in insertion order, which `Object.values`
      follows. */
  function KeysInOrder(items: seq<Entry>): seq<string> {
    if |items| == 0 then []
    else
      var prev := KeysInOrder(items[..|items| - 1]);
      var key := ShowKey(items[|items| - 1]);
      if key in prev then prev else prev + [key]
  }

  /** Nothing is held for a key exactly when no record has it. */
  lemma {:induction false} HeldNone(items: seq<Entry>, key: string)
    ensures Held(items, key).None? <==> forall j :: 0 <= j < |items| ==> ShowKey(items[j]) != key
    decreases |items|
  {
    if |items| > 0 {
      var init := items[..|items| - 1];
      HeldNone(init, key);
      assert forall j :: 0 <= j < |init| ==> init[j] == items[j];
    }
  }

  /** The record held for a key is the first of the records with the largest timestamp
      among those with the key. */
  lemma {:induction false} HeldIsLatest(items: seq<Entry>, key: string, h: nat)
    requires Held(items, key) == Some(h)
    ensures forall j :: 0 <= j < |items| && ShowKey(items[j]) == key ==> Stamp(items[j]) <= Stamp(items[h])
    ensures forall j :: 0 <= j < h && ShowKey(items[j]) == key ==> Stamp(items[j]) < Stamp(items[h])
    decreases |items|
  {
    var last := |items| - 1;
    var init := items[..last];
    assert forall j :: 0 <= j < |init| ==> init[j] == items[j];
    var prev := Held(init, key);
    if prev.Some? {
      HeldIsLatest(init, key, prev.value);
    } else {
      HeldNone(init, key);
    }
  }

  /** The step of the reduce: the held record changes only for the new record's key. */
  lemma HeldStep(items: seq<Entry>, i: nat)
    requires i < |items|
    ensures forall key {:trigger Held(items[..i + 1], key)} ::
      (Held(items[..i + 1], key) ==
       if ShowKey(items[i]) == key && (Held(items[..i], key).None? || Stamp(items[i]) > Stamp(items[Held(items[..i], key).value]))
       then Some(i) else Held(items[..i], key))
  {
    assert items[..i + 1][..i] == items[..i];
  }

  /** The step of the key order: a new key is appended. */
  lemma KeysStep(items: seq<Entry>, i: nat)
    requires i < |items|
    ensures KeysInOrder(items[..i + 1]) ==
      if ShowKey(items[i]) in KeysInOrder(items[..i]) then KeysInOrder(items[..i]) else KeysInOrder(items[..i]) + [ShowKey(items[i])]
  {
    assert items[..i + 1][..i] == items[..i];
  }

  /** Every key appears once, and the keys are exactly those of the records. */
  lemma {:induction false} KeysInOrderProps(items: seq<Entry>)
    ensures forall a, b :: 0 <= a < b < |KeysInOrder(items)| ==> KeysInOrder(items)[a] != KeysInOrder(items)[b]
    ensures forall key :: key in KeysInOrder(items) <==> exists j :: 0 <= j < |items| && ShowKey(items[j]) == key
    decreases |items|
  {
    if |items| > 0 {
      var init := items[..|items| - 1];
      KeysInOrderProps(init);
      assert forall j :: 0 <= j < |init| ==> init[j] == items[j];
      forall key | key in KeysInOrder(items) ensures exists j :: 0 <= j < |items| && ShowKey(items[j]) == key {
        if key !in KeysInOrder(init) {
          assert ShowKey(items[|items| - 1]) == key;
        }
      }
    }
  }

  /** `continueWatching.reduce(...)` then `Object.values`: one record per key, in the
      order the keys first appear, each the record `Held` names. */
  method LatestEpisodes(items: seq<Entry>) returns (r: seq<Entry>)
    ensures |r| == |KeysInOrder(items)|
    ensures forall n :: 0 <= n < |r| ==>
      Held(items, KeysInOrder(items)[n]).Some? && r[n] == items[Held(items, KeysInOrder(items)[n]).value]
  {
    var acc, order := LatestByKey(items);
    r := ValuesInOrder(acc, order);
  }

  /** The `reduce`: the accumulator object, with its keys in insertion order. */
  method LatestByKey(items: seq<Entry>) returns (acc: map<string, Entry>, order: seq<string>)
    ensures order == KeysInOrder(items)
    ensures forall key :: key in acc <==> key in order
    ensures forall key :: key in acc ==> Held(items, key).Some? && acc[key] == items[Held(items, key).value]
  {
    acc := map[];
    order := [];
    var i := 0;
    while i < |items|
      invariant 0 <= i <= |items|
      invariant order == KeysInOrder(items[..i])
      invariant forall key :: key in acc <==> key in order
      invariant forall key :: key in acc <==> Held(items[..i], key).Some?
      invariant forall key :: key in acc ==> acc[key] == items[Held(items[..i], key).value]
    {
      var item := items[i];
      var key := ShowKey(item);
      KeysStep(items, i);
      ReduceStep(acc, items, i);
      if key !in acc || Stamp(item) > Stamp(acc[key]) {
        if key !in acc {
          order := order + [key];
        }
        acc := acc[key := item];
      }
      i := i + 1;
    }
    assert items[..i] == items;
  }

  /** One step of the reduce keeps the accumulator holding the record `Held` names. */
  lemma ReduceStep(acc: map<string, Entry>, items: seq<Entry>, i: nat)
    requires i < |items|
    requires forall key :: key in acc <==> Held(items[..i], key).Some?
    requires forall key :: key in acc ==> acc[key] == items[Held(items[..i], key).value]
    ensures var key := ShowKey(items[i]);
      var acc' := if key !in acc || Stamp(items[i]) > Stamp(acc[key]) then acc[key := items[i]] else acc;
      (forall key :: key in acc' <==> Held(items[..i + 1], key).Some?) &&
      (forall key :: key in acc' ==> acc'[key] == items[Held(items[..i + 1], key).value])
  {
    var k := ShowKey(items[i]);
    if k !in acc || Stamp(items[i]) > Stamp(acc[k]) {
      ReduceTakes(acc, items, i);
    } else {
      ReduceKeeps(acc, items, i);
    }
  }

  /** A record with a new key, or newer than the held one, is taken. */
  lemma ReduceTakes(acc: map<string, Entry>, items: seq<Entry>, i: nat)
    requires i < |items|
    requires forall key :: key in acc <==> Held(items[..i], key).Some?
    requires forall key :: key in acc ==> acc[key] == items[Held(items[..i], key).value]
    requires ShowKey(items[i]) !in acc || Stamp(items[i]) > Stamp(acc[ShowKey(items[i])])
    ensures var acc' := acc[ShowKey(items[i]) := items[i]];
      (forall key :: key in acc' <==> Held(items[..i + 1], key).Some?) &&
      (forall key :: key in acc' ==> acc'[key] == items[Held(items[..i + 1], key).value])
  {
    HeldStep(items, i);
    assert Held(items[..i + 1], ShowKey(items[i])) == Some(i);
  }

  /** A record no newer than the held one leaves the accumulator as it is. */
  lemma ReduceKeeps(acc: map<string, Entry>, items: seq<Entry>, i: nat)
    requires i < |items|
    requires forall key :: key in acc <==> Held(items[..i], key).Some?
    requires forall key :: key in acc ==> acc[key] == items[Held(items[..i], key).value]
    requires ShowKey(items[i]) in acc && Stamp(items[i]) <= Stamp(acc[ShowKey(items[i])])
    ensures (forall key :: key in acc <==> Held(items[..i + 1], key).Some?) &&
      (forall key :: key in acc ==> acc[key] == items[Held(items[..i + 1], key).value])
  {
    HeldStep(items, i);
    assert Held(items[..i + 1], ShowKey(items[i])) == Held(items[..i], ShowKey(items[i]));
  }

  /** `Object.values(acc)`. */
  method ValuesInOrder(acc: map<string, Entry>, order: seq<string>) returns (r: seq<Entry>)
    requires forall key :: key in order ==> key in acc
    ensures |r| == |order|
    ensures forall m :: 0 <= m < |r| ==> r[m] == acc[order[m]]
  {
    r := [];
    var n := 0;
    while n < |order|
      invariant 0 <= n <= |order| && |r| == n
      invariant forall m :: 0 <= m < n ==> r[m] == acc[order[m]]
    {
      r := r + [acc[order[n]]];
      n := n + 1;
    }
  }

  /** The row holds one record per title and only records of the input, and a title's
      record is one of its latest. */
  lemma LatestEpisodesMeaning(items: seq<Entry>, n: nat)
    requires n < |KeysInOrder(items)|
    ensures Held(items, KeysInOrder(items)[n]).Some?
    ensures var e := items[Held(items, KeysInOrder(items)[n]).value];
      e in items && ShowKey(e) == KeysInOrder(items)[n] &&
      forall j :: 0 <= j < |items| && ShowKey(items[j]) == ShowKey(e) ==> Stamp(items[j]) <= Stamp(e)
  {
    KeysInOrderProps(items);
    HeldNone(items, KeysInOrder(items)[n]);
    HeldIsLatest(items, KeysInOrder(items)[n], Held(items, KeysInOrder(items)[n]).value);
  }

  // ---- a category row ----

  function Min(a: int, b: int): int { if a < b then a else b }

  /** The effect of one near-the-end scroll on `visibleItems`. */
  function Grown(visible: nat, count: nat): nat {
    if visible < count then Min(visible + 4, count) else visible
  }

  /** `visibleItems` after k near-the-end scrolls. */
  function GrownTimes(visible: nat, count: nat, k: nat): nat
    decreases k
  {
    if k == 0 then visible else GrownTimes(Grown(visible, count), count, k - 1)
  }

  /** Each scroll shows at most four more items and never more than there are; enough
      scrolls show them all. */
  lemma {:induction false} ScrollsShowAll(visible: nat, count: nat, k: nat)
    requires 4 * k + visible >= count
    ensures GrownTimes(visible, count, k) >= count
    ensures visible <= count ==> GrownTimes(visible, count, k) == count
    decreases k
  {
    if k > 0 {
      ScrollsShowAll(Grown(visible, count), count, k - 1);
    }
  }

  /** `CategorySection`: its items and `visibleItems`. */
  class CategorySection<T> {
    var items: seq<T>
    var visibleItems: nat

    constructor(items: seq<T>)
      ensures this.items == items && visibleItems == 4
    {
      this.items := items;
      visibleItems := 4;
    }

    /** `items.slice(0, visibleItems)`. */
    function Displayed(): (shown: seq<T>)
      reads this
      ensures shown <= items && |shown| == Min(visibleItems, |items|)
    {
      if visibleItems < |items| then items[..visibleItems] else items
    }

    /** `handleScroll`: within 200px of the end, four more items while some are hidden. */
    method HandleScroll(scrollLeft: int, scrollWidth: int, clientWidth: int)
      modifies this
      ensures items == old(items)
      ensures visibleItems == if scrollLeft + clientWidth >= scrollWidth - 200 then Grown(old(visibleItems), |items|)
                              else old(visibleItems)
    {
      if scrollLeft + clientWidth >= scrollWidth - 200 && visibleItems < |items| {
        visibleItems := Min(visibleItems + 4, |items|);
      }
    }

    /** New items from the parent keep the current `visibleItems`. */
    method SetItems(newItems: seq<T>)
      modifies this
      ensures items == newItems && visibleItems == old(visibleItems)
    {
      items := newItems;
    }
  }

  /** A scroll keeps what was shown as a prefix of what is shown. */
  lemma GrownKeepsPrefix<T>(items: seq<T>, visible: nat)
    ensures Grown(visible, |items|) >= visible
    ensures Grown(visible, |items|) - visible <= 4
    ensures Min(Grown(visible, |items|), |items|) >= Min(visible, |items|)
  {
  }

  // ---- the continue-watching card key ----

  /** `x || 0` of a stored season or episode. */
  function OrZero(n: Num): int {
    if n.Some? && n.value != 0 then n.value else 0
  }

  /** `${item.id}-${item.mediaType}-${item.season || 0}-${item.episode || 0}`. */
  function ContinueKey(e: Entry): string {
    ShowKey(e) + "-" + IntToString(OrZero(e.season)) + "-" + IntToString(OrZero(e.episode))
  }

  /** Two cards of one title get one key only for the same season and episode (when
      neither is negative). */
  lemma ContinueKeyDistinct(a: Entry, b: Entry)
    requires ShowKey(a) == ShowKey(b) && ContinueKey(a) == ContinueKey(b)
    requires OrZero(a.season) >= 0 && OrZero(a.episode) >= 0 && OrZero(b.season) >= 0 && OrZero(b.episode) >= 0
    ensures OrZero(a.season) == OrZero(b.season) && OrZero(a.episode) == OrZero(b.episode)
  {
    var sa, ea := NatToString(OrZero(a.season)), NatToString(OrZero(a.episode));
    var sb, eb := NatToString(OrZero(b.season)), NatToString(OrZero(b.episode));
    var p := ShowKey(a) + "-";
    assert ContinueKey(a) == (p + sa) + ['-'] + ea;
    assert ContinueKey(b) == (p + sb) + ['-'] + eb;
    SeparatedDigits(p + sa, ea, p + sb, eb, '-');
    assert sa == (p + sa)[|p|..] && sb == (p + sb)[|p|..];
    NatToStringInjective(OrZero(a.season), OrZero(b.season));
    NatToStringInjective(OrZero(a.episode), OrZero(b.episode));
  }
}
