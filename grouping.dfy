/** Grouping a sequence by a string key, as both `groupBySender` in `app.tsx`
    and the `/senders` route of the backend do. Both fill a keyed table left
    to right (a plain object or a `Map`), creating an entry when a key is
    first seen and appending to it afterwards; enumerating the table then
    yields the keys in first-seen order. `Keys` is that order and `With` is
    the entry of one key. Both are defined from the END of the sequence, as
    one step of the filling loop sees them. */
module Grouping {

  function Keys<T>(xs: seq<T>, key: T -> string): seq<string>
  {
    if xs == [] then []
    else
      var ks := Keys(xs[..|xs| - 1], key);
      if key(xs[|xs| - 1]) in ks then ks else ks + [key(xs[|xs| - 1])]
  }

  function With<T>(xs: seq<T>, key: T -> string, k: string): seq<T>
  {
    if xs == [] then []
    else With(xs[..|xs| - 1], key, k) + (if key(xs[|xs| - 1]) == k then [xs[|xs| - 1]] else [])
  }

  /** Total number of members over the keys `ks`. */
  function Sizes<T>(ks: seq<string>, xs: seq<T>, key: T -> string): nat
  {
    if ks == [] then 0 else |With(xs, key, ks[0])| + Sizes(ks[1..], xs, key)
  }

  ghost predicate Distinct(ks: seq<string>)
  {
    forall i, j :: 0 <= i < j < |ks| ==> ks[i] != ks[j]
  }

  lemma KeysSnoc<T>(xs: seq<T>, x: T, key: T -> string)
    ensures Keys(xs + [x], key) ==
      if key(x) in Keys(xs, key) then Keys(xs, key) else Keys(xs, key) + [key(x)]
  {
    assert (xs + [x])[..|xs|] == xs;
  }

  lemma WithSnoc<T>(xs: seq<T>, x: T, key: T -> string, k: string)
    ensures With(xs + [x], key, k) == With(xs, key, k) + (if key(x) == k then [x] else [])
  {
    assert (xs + [x])[..|xs|] == xs;
  }

  /** The keys are distinct, and they are exactly the keys that occur. */
  lemma {:induction false} KeysFacts<T>(xs: seq<T>, key: T -> string)
    ensures Distinct(Keys(xs, key))
    ensures forall k :: k in Keys(xs, key) <==> exists i :: 0 <= i < |xs| && key(xs[i]) == k
  {
    if xs != [] {
      var init := xs[..|xs| - 1];
      KeysFacts(init, key);
      assert xs == init + [xs[|xs| - 1]];
      KeysSnoc(init, xs[|xs| - 1], key);
      forall k ensures k in Keys(xs, key) <==> exists i :: 0 <= i < |xs| && key(xs[i]) == k {
        if exists i :: 0 <= i < |xs| && key(xs[i]) == k {
          var i :| 0 <= i < |xs| && key(xs[i]) == k;
          if i < |xs| - 1 {
            assert init[i] == xs[i];
          }
        }
        if k in Keys(init, key) {
          var i :| 0 <= i < |init| && key(init[i]) == k;
          assert xs[i] == init[i];
        }
      }
    }
  }

  /** Every member is an input element with the key, and a key's entry is
      empty exactly when the key never occurs. */
  lemma {:induction false} WithMembers<T>(xs: seq<T>, key: T -> string, k: string)
    ensures forall e :: e in With(xs, key, k) ==> e in xs && key(e) == k
    ensures With(xs, key, k) == [] <==> k !in Keys(xs, key)
  {
    if xs != [] {
      var init := xs[..|xs| - 1];
      WithMembers(init, key, k);
      KeysFacts(init, key);
      assert xs == init + [xs[|xs| - 1]];
      KeysSnoc(init, xs[|xs| - 1], key);
    }
  }

  /** The first member of a key's entry is the first element with that key. */
  lemma {:induction false} WithFirst<T>(xs: seq<T>, key: T -> string, i: nat)
    requires i < |xs|
    requires forall j :: 0 <= j < i ==> key(xs[j]) != key(xs[i])
    ensures |With(xs, key, key(xs[i]))| > 0 && With(xs, key, key(xs[i]))[0] == xs[i]
  {
    var init := xs[..|xs| - 1];
    if i == |xs| - 1 {
      WithMembers(init, key, key(xs[i]));
      KeysFacts(init, key);
    } else {
      assert init[i] == xs[i];
      WithFirst(init, key, i);
    }
  }

  lemma {:induction false} SizesAppend<T>(ks: seq<string>, k: string, xs: seq<T>, key: T -> string)
    ensures Sizes(ks + [k], xs, key) == Sizes(ks, xs, key) + |With(xs, key, k)|
  {
    if ks != [] {
      assert (ks + [k])[1..] == ks[1..] + [k];
      SizesAppend(ks[1..], k, xs, key);
    }
  }

  /** Adding one element grows the total by the number of times its key
      is listed. */
  lemma {:induction false} SizesSnoc<T>(ks: seq<string>, xs: seq<T>, x: T, key: T -> string)
    requires Distinct(ks)
    ensures Sizes(ks, xs + [x], key) == Sizes(ks, xs, key) + (if key(x) in ks then 1 else 0)
  {
    if ks != [] {
      WithSnoc(xs, x, key, ks[0]);
      SizesSnoc(ks[1..], xs, x, key);
      if key(x) in ks[1..] {
        var j :| 0 <= j < |ks[1..]| && ks[1..][j] == key(x);
        assert ks[j + 1] == key(x);
      }
      assert key(x) in ks <==> key(x) == ks[0] || key(x) in ks[1..];
    }
  }

  /** Grouping loses and duplicates nothing: the entries of all keys hold
      exactly as many members as the input has elements. */
  lemma {:induction false} SizesOfKeys<T>(xs: seq<T>, key: T -> string)
    ensures Sizes(Keys(xs, key), xs, key) == |xs|
  {
    if xs != [] {
      var init := xs[..|xs| - 1];
      var x := xs[|xs| - 1];
      var ks := Keys(init, key);
      SizesOfKeys(init, key);
      KeysFacts(init, key);
      assert xs == init + [x];
      KeysSnoc(init, x, key);
      SizesSnoc(ks, init, x, key);
      if key(x) !in ks {
        SizesAppend(ks, key(x), xs, key);
        WithMembers(init, key, key(x));
        WithSnoc(init, x, key, key(x));
      }
    }
  }
}
