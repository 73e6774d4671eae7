/** Stable sort into non-increasing order of a numeric key.

    Three places of the system sort this way: the backend's
    `Array.prototype.sort((a, b) => b.count - a.count)` on sender groups,
    the same call in `app.tsx`, and Python's
    `insights.sort(key=..., reverse=True)` on sender insights. All three
    sorts are stable (ECMAScript 2019 and Python both promise it, and
    Python's `reverse=True` keeps equal elements in their original order), so
    one definition serves. It is an insertion sort: each element goes in
    front of the first element whose key is not greater than its own. */
module StableSort {

  function Insert<T>(x: T, s: seq<T>, key: T -> int): seq<T>
  {
    if s == [] then [x]
    else if key(s[0]) <= key(x) then [x] + s
    else [s[0]] + Insert(x, s[1..], key)
  }

  function SortDesc<T>(xs: seq<T>, key: T -> int): seq<T>
  {
    if xs == [] then [] else Insert(xs[0], SortDesc(xs[1..], key), key)
  }

  ghost predicate NonIncreasing<T>(s: seq<T>, key: T -> int)
  {
    forall i, j :: 0 <= i < j < |s| ==> key(s[i]) >= key(s[j])
  }

  /** The elements whose key is `v`, in their order in `s`. */
  function WithKey<T>(s: seq<T>, key: T -> int, v: int): seq<T>
  {
    if s == [] then []
    else (if key(s[0]) == v then [s[0]] else []) + WithKey(s[1..], key, v)
  }

  /** Sum of the keys, e.g. the total of the groups' counts. */
  function KeySum<T>(s: seq<T>, key: T -> int): int
  {
    if s == [] then 0 else key(s[0]) + KeySum(s[1..], key)
  }

  /** Inserting keeps every key at or below a bound that `x` and `s` respect. */
  lemma {:induction false} InsertBounded<T>(x: T, s: seq<T>, key: T -> int, b: int)
    requires key(x) <= b
    requires forall j :: 0 <= j < |s| ==> key(s[j]) <= b
    ensures forall j :: 0 <= j < |Insert(x, s, key)| ==> key(Insert(x, s, key)[j]) <= b
  {
    if s != [] && key(s[0]) > key(x) {
      InsertBounded(x, s[1..], key, b);
    }
  }

  lemma {:induction false} InsertSorted<T>(x: T, s: seq<T>, key: T -> int)
    requires NonIncreasing(s, key)
    ensures NonIncreasing(Insert(x, s, key), key)
  {
    if s != [] && key(s[0]) > key(x) {
      var r := Insert(x, s[1..], key);
      InsertSorted(x, s[1..], key);
      InsertBounded(x, s[1..], key, key(s[0]));
      forall i, j | 0 <= i < j < |[s[0]] + r|
        ensures key(([s[0]] + r)[i]) >= key(([s[0]] + r)[j])
      {
        assert ([s[0]] + r)[j] == r[j - 1];
        if i > 0 {
          assert ([s[0]] + r)[i] == r[i - 1];
        }
      }
    }
  }

  lemma {:induction false} InsertContents<T>(x: T, s: seq<T>, key: T -> int)
    ensures multiset(Insert(x, s, key)) == multiset([x]) + multiset(s)
    ensures KeySum(Insert(x, s, key), key) == key(x) + KeySum(s, key)
  {
    if s != [] && key(s[0]) > key(x) {
      InsertContents(x, s[1..], key);
      assert s == [s[0]] + s[1..];
      assert ([s[0]] + Insert(x, s[1..], key))[1..] == Insert(x, s[1..], key);
    } else if s != [] {
      assert ([x] + s)[1..] == s;
    }
  }

  lemma {:induction false} InsertStable<T>(x: T, s: seq<T>, key: T -> int, v: int)
    ensures WithKey(Insert(x, s, key), key, v) == WithKey([x] + s, key, v)
  {
    if s != [] && key(s[0]) > key(x) {
      var r := Insert(x, s[1..], key);
      InsertStable(x, s[1..], key, v);
      var ax := if key(x) == v then [x] else [];
      var a0 := if key(s[0]) == v then [s[0]] else [];
      assert ([s[0]] + r)[1..] == r;
      assert ([x] + s)[1..] == s;
      assert ([x] + s[1..])[1..] == s[1..];
      calc {
        WithKey(Insert(x, s, key), key, v);
        WithKey([s[0]] + r, key, v);
        a0 + WithKey(r, key, v);
        a0 + (ax + WithKey(s[1..], key, v));
        { assert ax == [] || a0 == []; }
        ax + (a0 + WithKey(s[1..], key, v));
        ax + WithKey(s, key, v);
        WithKey([x] + s, key, v);
      }
    }
  }

  /** The result is in non-increasing key order. It holds the same elements
      as the input, and the elements with any one key value stay in their
      input order (stability). */
  lemma {:induction false} SortDescFacts<T>(xs: seq<T>, key: T -> int)
    ensures |SortDesc(xs, key)| == |xs|
    ensures NonIncreasing(SortDesc(xs, key), key)
    ensures multiset(SortDesc(xs, key)) == multiset(xs)
    ensures KeySum(SortDesc(xs, key), key) == KeySum(xs, key)
    ensures forall v :: WithKey(SortDesc(xs, key), key, v) == WithKey(xs, key, v)
  {
    if xs != [] {
      var rest := SortDesc(xs[1..], key);
      SortDescFacts(xs[1..], key);
      InsertSorted(xs[0], rest, key);
      InsertContents(xs[0], rest, key);
      assert xs == [xs[0]] + xs[1..];
      assert |Insert(xs[0], rest, key)| == |multiset(Insert(xs[0], rest, key))|;
      forall v ensures WithKey(SortDesc(xs, key), key, v) == WithKey(xs, key, v) {
        InsertStable(xs[0], rest, key, v);
        assert ([xs[0]] + rest)[1..] == rest;
      }
    }
  }
  ghost predicate DistinctElems<T>(s: seq<T>)
  {
    forall i, j :: 0 <= i < j < |s| ==> s[i] != s[j]
  }

  lemma ConsDistinct<T>(a: T, r: seq<T>)
    requires DistinctElems(r) && a !in r
    ensures DistinctElems([a] + r)
  {
    forall i, j | 0 <= i < j < |[a] + r| ensures ([a] + r)[i] != ([a] + r)[j] {
      assert ([a] + r)[j] == r[j - 1];
      if i > 0 {
        assert ([a] + r)[i] == r[i - 1];
      }
    }
  }

  lemma {:induction false} InsertDistinct<T>(x: T, s: seq<T>, key: T -> int)
    requires DistinctElems(s) && x !in s
    ensures DistinctElems(Insert(x, s, key))
  {
    if s == [] {
    } else if key(s[0]) <= key(x) {
      ConsDistinct(x, s);
    } else {
      var r := Insert(x, s[1..], key);
      assert s == [s[0]] + s[1..];
      assert DistinctElems(s[1..]) && s[0] !in s[1..] && x !in s[1..];
      InsertDistinct(x, s[1..], key);
      InsertContents(x, s[1..], key);
      assert s[0] != x;
      assert s[0] !in multiset(r);
      ConsDistinct(s[0], r);
    }
  }

  /** Sorting never duplicates an element. */
  lemma {:induction false} SortDescDistinct<T>(xs: seq<T>, key: T -> int)
    requires DistinctElems(xs)
    ensures DistinctElems(SortDesc(xs, key))
  {
    if xs != [] {
      SortDescDistinct(xs[1..], key);
      SortDescFacts(xs[1..], key);
      assert xs[0] !in multiset(xs[1..]);
      InsertDistinct(xs[0], SortDesc(xs[1..], key), key);
    }
  }
  /** Input that is already in non-increasing order is left as it is. */
  lemma {:induction false} SortDescOfSorted<T>(xs: seq<T>, key: T -> int)
    requires NonIncreasing(xs, key)
    ensures SortDesc(xs, key) == xs
  {
    if xs != [] {
      SortDescOfSorted(xs[1..], key);
      assert xs == [xs[0]] + xs[1..];
    }
  }
}
