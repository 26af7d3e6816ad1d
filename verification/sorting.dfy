/** `Array.prototype.sort` with a numeric comparator, as the modelled code uses it:
    `(a, b) => key(b) - key(a)` (descending) or `key(a) - key(b)` (ascending).  The
    built-in sort is stable, so elements with equal keys keep their order; it is
    specified here as an insertion sort and proved sorted, a permutation and stable. */
module Sorting {

  /** Sorted so that keys never increase. */
  ghost predicate SortedDesc<T>(s: seq<T>, key: T -> int) {
    forall i, j :: 0 <= i < j < |s| ==> key(s[i]) >= key(s[j])
  }

  /** The elements of `s` whose key is `k`, in their order in `s`. */
  function WithKey<T>(s: seq<T>, key: T -> int, k: int): (r: seq<T>)
    ensures |r| <= |s|
  {
    if |s| == 0 then [] else (if key(s[0]) == k then [s[0]] else []) + WithKey(s[1..], key, k)
  }

  /** `x` placed after every element whose key is at least its own. */
  function InsertDesc<T>(x: T, s: seq<T>, key: T -> int): seq<T> {
    if |s| == 0 then [x]
    else if key(s[0]) >= key(x) then [s[0]] + InsertDesc(x, s[1..], key)
    else [x] + s
  }

  /** The stable sort by key, greatest key first. */
  function SortDesc<T>(s: seq<T>, key: T -> int): seq<T> {
    if |s| == 0 then [] else InsertDesc(s[|s| - 1], SortDesc(s[..|s| - 1], key), key)
  }

  /** The stable sort by key, smallest key first. */
  function SortAsc<T>(s: seq<T>, key: T -> int): seq<T> {
    SortDesc(s, Negated(key))
  }

  function Negated<T>(key: T -> int): T -> int {
    x => -key(x)
  }

  lemma {:induction false} WithKeyConcat<T>(a: seq<T>, b: seq<T>, key: T -> int, k: int)
    ensures WithKey(a + b, key, k) == WithKey(a, key, k) + WithKey(b, key, k)
  {
    if |a| > 0 {
      WithKeyConcat(a[1..], b, key, k);
      assert (a + b)[1..] == a[1..] + b;
    } else {
      assert a + b == b;
    }
  }

  lemma {:induction false} WithKeyNone<T>(s: seq<T>, key: T -> int, k: int)
    requires forall i :: 0 <= i < |s| ==> key(s[i]) != k
    ensures WithKey(s, key, k) == []
  {
    if |s| > 0 { WithKeyNone(s[1..], key, k); }
  }

  lemma SortedTail<T>(s: seq<T>, key: T -> int)
    requires |s| > 0 && SortedDesc(s, key)
    ensures SortedDesc(s[1..], key)
    ensures forall i :: 0 <= i < |s[1..]| ==> key(s[1..][i]) <= key(s[0])
  {
    forall i, j | 0 <= i < j < |s[1..]| ensures key(s[1..][i]) >= key(s[1..][j]) {
      assert s[1..][i] == s[i + 1] && s[1..][j] == s[j + 1];
    }
  }

  lemma {:induction false} InsertDescBound<T>(x: T, s: seq<T>, key: T -> int, b: int)
    requires key(x) <= b && forall i :: 0 <= i < |s| ==> key(s[i]) <= b
    ensures forall i :: 0 <= i < |InsertDesc(x, s, key)| ==> key(InsertDesc(x, s, key)[i]) <= b
  {
    if |s| > 0 && key(s[0]) >= key(x) {
      InsertDescBound(x, s[1..], key, b);
      var t := InsertDesc(x, s[1..], key);
      forall i | 0 <= i < |[s[0]] + t| ensures key(([s[0]] + t)[i]) <= b {
        if i > 0 { assert ([s[0]] + t)[i] == t[i - 1]; }
      }
    }
  }

  lemma {:induction false} InsertDescSorted<T>(x: T, s: seq<T>, key: T -> int)
    requires SortedDesc(s, key)
    ensures SortedDesc(InsertDesc(x, s, key), key)
  {
    if |s| > 0 && key(s[0]) >= key(x) {
      SortedTail(s, key);
      var t := InsertDesc(x, s[1..], key);
      InsertDescSorted(x, s[1..], key);
      InsertDescBound(x, s[1..], key, key(s[0]));
      var r := [s[0]] + t;
      forall i, j | 0 <= i < j < |r| ensures key(r[i]) >= key(r[j]) {
        assert r[j] == t[j - 1];
        if i > 0 { assert r[i] == t[i - 1]; }
      }
    } else if |s| > 0 {
      var r := [x] + s;
      forall i, j | 0 <= i < j < |r| ensures key(r[i]) >= key(r[j]) {
        assert r[j] == s[j - 1];
        if i > 0 { assert r[i] == s[i - 1]; }
      }
    }
  }

  lemma {:induction false} InsertDescPerm<T>(x: T, s: seq<T>, key: T -> int)
    ensures multiset(InsertDesc(x, s, key)) == multiset(s) + multiset{x}
  {
    if |s| > 0 && key(s[0]) >= key(x) {
      InsertDescPerm(x, s[1..], key);
      assert s == [s[0]] + s[1..];
    }
  }

  lemma {:induction false} InsertDescWithKey<T>(x: T, s: seq<T>, key: T -> int, k: int)
    requires SortedDesc(s, key)
    ensures WithKey(InsertDesc(x, s, key), key, k) == WithKey(s, key, k) + (if key(x) == k then [x] else [])
  {
    if |s| == 0 {
      assert WithKey([x], key, k) == (if key(x) == k then [x] else []) + WithKey([x][1..], key, k);
    } else if key(s[0]) >= key(x) {
      SortedTail(s, key);
      var t := InsertDesc(x, s[1..], key);
      InsertDescWithKey(x, s[1..], key, k);
      assert WithKey([s[0]] + t, key, k) == (if key(s[0]) == k then [s[0]] else []) + WithKey(t, key, k) by {
        assert ([s[0]] + t)[1..] == t;
      }
    } else {
      assert WithKey([x] + s, key, k) == (if key(x) == k then [x] else []) + WithKey(s, key, k) by {
        assert ([x] + s)[1..] == s;
      }
      if key(x) == k {
        forall i | 0 <= i < |s| ensures key(s[i]) != k {
          if i > 0 { assert key(s[0]) >= key(s[i]); }
        }
        WithKeyNone(s, key, k);
      }
    }
  }

  /** The sort orders by key, rearranges without adding or losing elements, and keeps the
      relative order of every group of elements with equal keys. */
  lemma {:induction false} SortDescProps<T>(s: seq<T>, key: T -> int)
    ensures SortedDesc(SortDesc(s, key), key)
    ensures multiset(SortDesc(s, key)) == multiset(s)
    ensures forall k :: WithKey(SortDesc(s, key), key, k) == WithKey(s, key, k)
  {
    if |s| > 0 {
      var init, last := s[..|s| - 1], s[|s| - 1];
      SortDescProps(init, key);
      InsertDescSorted(last, SortDesc(init, key), key);
      InsertDescPerm(last, SortDesc(init, key), key);
      assert s == init + [last];
      forall k ensures WithKey(SortDesc(s, key), key, k) == WithKey(s, key, k) {
        InsertDescWithKey(last, SortDesc(init, key), key, k);
        WithKeyConcat(init, [last], key, k);
      }
    }
  }

  /** A prefix of a sequence sorted by decreasing key holds each element no more often
      than the sequence does, and every element left out has a key no greater than any
      element kept. */
  lemma PrefixTop<T>(s: seq<T>, key: T -> int, n: nat)
    requires SortedDesc(s, key) && n <= |s|
    ensures multiset(s[..n]) <= multiset(s)
    ensures forall x, y :: x in s && x !in s[..n] && y in s[..n] ==> key(x) <= key(y)
  {
    assert s == s[..n] + s[n..];
    assert multiset(s) == multiset(s[..n]) + multiset(s[n..]);
    forall x, y | x in s && x !in s[..n] && y in s[..n] ensures key(x) <= key(y) {
      assert x in multiset(s[n..]);
      var k :| 0 <= k < |s[n..]| && s[n..][k] == x;
      var i :| 0 <= i < n && s[..n][i] == y;
      assert s[n + k] == x && s[i] == y;
    }
  }

  lemma SortDescLength<T>(s: seq<T>, key: T -> int)
    ensures |SortDesc(s, key)| == |s|
  {
    SortDescProps(s, key);
    assert |multiset(SortDesc(s, key))| == |multiset(s)|;
  }

  /** The ascending sort orders by key (never decreasing), is a permutation and is stable. */
  lemma SortAscProps<T>(s: seq<T>, key: T -> int)
    ensures forall i, j :: 0 <= i < j < |SortAsc(s, key)| ==> key(SortAsc(s, key)[i]) <= key(SortAsc(s, key)[j])
    ensures multiset(SortAsc(s, key)) == multiset(s)
    ensures forall k :: WithKey(SortAsc(s, key), Negated(key), k) == WithKey(s, Negated(key), k)
  {
    SortDescProps(s, Negated(key));
  }
}
