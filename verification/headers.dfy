/** A JavaScript header object: names with values, in insertion order, each name once.
    Setting a present name keeps its place; setting a new one appends it. */
module Headers {

  import opened Wrappers

  type HeaderList = seq<(string, string)>

  predicate UniqueNames(h: HeaderList) {
    forall i, j :: 0 <= i < j < |h| ==> h[i].0 != h[j].0
  }

  /** `Object.keys(h)`. */
  function Names(h: HeaderList): (names: seq<string>)
    ensures |names| == |h| && forall i :: 0 <= i < |h| ==> names[i] == h[i].0
  {
    if |h| == 0 then [] else [h[0].0] + Names(h[1..])
  }

  /** `h[name]`, None when the name is absent. */
  function Get(h: HeaderList, name: string): (r: Option<string>)
    ensures r.None? <==> name !in Names(h)
  {
    if |h| == 0 then None
    else if h[0].0 == name then Some(h[0].1)
    else Get(h[1..], name)
  }

  /** `h[name] = value`. */
  function Set(h: HeaderList, name: string, value: string): (r: HeaderList)
    ensures Names(r) == if name in Names(h) then Names(h) else Names(h) + [name]
  {
    if |h| == 0 then [(name, value)]
    else if h[0].0 == name then [(name, value)] + h[1..]
    else [h[0]] + Set(h[1..], name, value)
  }

  /** `delete h[name]`. */
  function Delete(h: HeaderList, name: string): (r: HeaderList)
    ensures |r| <= |h|
    ensures forall i :: 0 <= i < |r| ==> r[i].0 != name && r[i] in h
  {
    if |h| == 0 then []
    else if h[0].0 == name then Delete(h[1..], name)
    else [h[0]] + Delete(h[1..], name)
  }

  /** After setting, the name reads back the value and every other name is unchanged. */
  lemma {:induction false} SetGet(h: HeaderList, name: string, value: string, other: string)
    ensures Get(Set(h, name, value), name) == Some(value)
    ensures other != name ==> Get(Set(h, name, value), other) == Get(h, other)
  {
    if |h| > 0 && h[0].0 != name {
      SetGet(h[1..], name, value, other);
    }
  }

  /** Setting keeps the names unique. */
  lemma SetUnique(h: HeaderList, name: string, value: string)
    requires UniqueNames(h)
    ensures UniqueNames(Set(h, name, value))
  {
    var r := Set(h, name, value);
    var n := Names(r);
    assert forall i :: 0 <= i < |r| ==> n[i] == r[i].0;
    forall i, j | 0 <= i < j < |n| ensures n[i] != n[j] {
      var hn := Names(h);
      if name in hn {
        assert n[i] == hn[i] && n[j] == hn[j];
        assert hn[i] == h[i].0 && hn[j] == h[j].0;
      } else {
        if j < |hn| {
          assert n[i] == hn[i] && n[j] == hn[j];
          assert hn[i] == h[i].0 && hn[j] == h[j].0;
        } else {
          assert n[j] == name && n[i] == hn[i];
        }
      }
    }
  }

  /** Setting a name the object does not have appends it. */
  lemma {:induction false} SetAbsent(h: HeaderList, name: string, value: string)
    requires name !in Names(h)
    ensures Set(h, name, value) == h + [(name, value)]
  {
    if |h| > 0 {
      assert Names(h) == [h[0].0] + Names(h[1..]);
      SetAbsent(h[1..], name, value);
      calc {
        Set(h, name, value);
        [h[0]] + Set(h[1..], name, value);
        [h[0]] + (h[1..] + [(name, value)]);
        { assert [h[0]] + h[1..] == h; }
        h + [(name, value)];
      }
    }
  }

  /** Reading from a list with one more pair at the end: the earlier pairs win. */
  lemma {:induction false} GetAppend(h: HeaderList, x: (string, string), name: string)
    ensures Get(h + [x], name) == if name in Names(h) then Get(h, name) else if x.0 == name then Some(x.1) else None
  {
    if |h| > 0 {
      assert (h + [x])[1..] == h[1..] + [x];
      assert Names(h) == [h[0].0] + Names(h[1..]);
      GetAppend(h[1..], x, name);
    }
  }

  /** After deleting, the name is absent and every other name is unchanged; the names stay
      unique. */
  lemma {:induction false} DeleteGet(h: HeaderList, name: string, other: string)
    ensures Get(Delete(h, name), name).None?
    ensures other != name ==> Get(Delete(h, name), other) == Get(h, other)
    ensures UniqueNames(h) ==> UniqueNames(Delete(h, name))
  {
    if |h| > 0 {
      DeleteGet(h[1..], name, other);
      if UniqueNames(h) && h[0].0 != name {
        var r := Delete(h, name);
        forall i, j | 0 <= i < j < |r| ensures r[i].0 != r[j].0 {
          if i == 0 {
            assert r[j] in h[1..];
          }
        }
      }
    }
  }
}
