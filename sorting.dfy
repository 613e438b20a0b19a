/** Sorting by a numeric key, as `sort_index` and `sort_values` do. The
    pandas sorts used by the scripts are not stable, so nothing here promises
    an order among elements with equal keys: the contracts say only that the
    result is ordered by key and is a permutation of the input. */
module Sorting {

  /** `s` is ordered by non-decreasing `key`. */
  ghost predicate SortedBy<T>(s: seq<T>, key: T -> real) {
    forall i, j :: 0 <= i <= j < |s| ==> key(s[i]) <= key(s[j])
  }

  /** Inserts `x` into `s` before the first element with a larger or equal key. */
  function InsertBy<T(==)>(x: T, s: seq<T>, key: T -> real): (r: seq<T>)
    ensures multiset(r) == multiset(s) + multiset{x}
    ensures |r| == |s| + 1
  {
    if s == [] then [x]
    else if key(x) <= key(s[0]) then [x] + s
    else
      assert s == [s[0]] + s[1..];
      [s[0]] + InsertBy(x, s[1..], key)
  }

  lemma {:induction false} InsertBySorted<T>(x: T, s: seq<T>, key: T -> real)
    requires SortedBy(s, key)
    ensures SortedBy(InsertBy(x, s, key), key)
  {
    if s == [] {
      assert InsertBy(x, s, key) == [x];
    } else if key(x) <= key(s[0]) {
      assert InsertBy(x, s, key) == [x] + s;
      SortedCons(x, s, key);
    } else {
      var tail := s[1..];
      var rest := InsertBy(x, tail, key);
      SortedTail(s, key);
      InsertBySorted(x, tail, key);
      forall y | y in rest ensures key(s[0]) <= key(y) {
        assert y in multiset(rest);
        if y != x {
          assert y in multiset(tail);
          var j :| 0 <= j < |tail| && tail[j] == y;
          assert s[j + 1] == y;
        }
      }
      assert InsertBy(x, s, key) == [s[0]] + rest;
      SortedCons(s[0], rest, key);
    }
  }

  /** Putting an element no larger than any other in front keeps a sequence sorted. */
  lemma SortedCons<T>(x: T, s: seq<T>, key: T -> real)
    requires SortedBy(s, key)
    requires forall y :: y in s ==> key(x) <= key(y)
    ensures SortedBy([x] + s, key)
  {
    var r := [x] + s;
    forall i, j | 0 <= i <= j < |r| ensures key(r[i]) <= key(r[j]) {
      if i == 0 {
        if j > 0 {
          assert r[j] == s[j - 1];
          assert r[j] in s;
        }
      } else {
        assert r[i] == s[i - 1] && r[j] == s[j - 1];
      }
    }
  }

  lemma SortedTail<T>(s: seq<T>, key: T -> real)
    requires SortedBy(s, key) && s != []
    ensures SortedBy(s[1..], key)
    ensures forall y :: y in s ==> key(s[0]) <= key(y)
  {
    var tail := s[1..];
    forall i, j | 0 <= i <= j < |tail| ensures key(tail[i]) <= key(tail[j]) {
      assert tail[i] == s[i + 1] && tail[j] == s[j + 1];
    }
    forall y | y in s ensures key(s[0]) <= key(y) {
      var j :| 0 <= j < |s| && s[j] == y;
    }
  }

  /** The elements of `s` in non-decreasing order of `key`. */
  function SortBy<T(==)>(s: seq<T>, key: T -> real): (r: seq<T>)
    ensures SortedBy(r, key)
    ensures multiset(r) == multiset(s)
    ensures |r| == |s|
  {
    if s == [] then []
    else
      assert s == [s[0]] + s[1..];
      InsertBySorted(s[0], SortBy(s[1..], key), key);
      InsertBy(s[0], SortBy(s[1..], key), key)
  }

  /** Cutting a sorted sequence after `m` elements: every element kept has a key no larger than any element left over. */
  lemma SortedPrefixIsSmallest<T>(s: seq<T>, key: T -> real, m: nat)
    requires SortedBy(s, key) && m <= |s|
    ensures multiset(s[..m]) <= multiset(s)
    ensures forall x, y :: x in multiset(s[..m]) && y in multiset(s) - multiset(s[..m]) ==> key(x) <= key(y)
  {
    assert s == s[..m] + s[m..];
    assert multiset(s) == multiset(s[..m]) + multiset(s[m..]);
    forall x, y | x in multiset(s[..m]) && y in multiset(s) - multiset(s[..m])
      ensures key(x) <= key(y)
    {
      assert x in s[..m];
      assert y in multiset(s[m..]);
      assert y in s[m..];
      var i :| 0 <= i < m && s[i] == x;
      var j :| m <= j < |s| && s[j] == y;
    }
  }

  /** A sequence already in strictly increasing key order is left as it is. */
  lemma {:induction false} SortByStrictlySorted<T>(s: seq<T>, key: T -> real)
    requires forall i, j :: 0 <= i < j < |s| ==> key(s[i]) < key(s[j])
    ensures SortBy(s, key) == s
  {
    if s != [] {
      var tail := s[1..];
      assert forall i, j :: 0 <= i < j < |tail| ==> key(tail[i]) < key(tail[j]) by {
        forall i, j | 0 <= i < j < |tail| ensures key(tail[i]) < key(tail[j]) {
          assert tail[i] == s[i + 1] && tail[j] == s[j + 1];
        }
      }
      SortByStrictlySorted(tail, key);
      if tail != [] {
        assert key(s[0]) < key(tail[0]);
      }
      assert [s[0]] + tail == s;
    }
  }
}
