/** Sorting by an integer key, used for `ORDER BY timestamp DESC` in the
    store and for `sort_values('timestamp')` in the training-set script. */
module Sorting {

  predicate SortedBy<T>(s: seq<T>, key: T -> int) {
    forall i, j :: 0 <= i < j < |s| ==> key(s[i]) <= key(s[j])
  }

  /** Puts `x` in front of the first element whose key is not below its own. */
  function Insert<T>(x: T, s: seq<T>, key: T -> int): (r: seq<T>)
    requires SortedBy(s, key)
    ensures SortedBy(r, key)
    ensures multiset(r) == multiset(s) + multiset{x}
  {
    if s == [] || key(x) <= key(s[0]) then
      [x] + s
    else
      var tail := Insert(x, s[1..], key);
      assert s == [s[0]] + s[1..];
      HeadStaysFirst(x, s, key, tail);
      [s[0]] + tail
  }

  /** Every element of `tail` is `x` or an element of `s[1..]`, so none has a key below `s[0]`'s. */
  lemma HeadStaysFirst<T>(x: T, s: seq<T>, key: T -> int, tail: seq<T>)
    requires SortedBy(s, key) && s != [] && key(s[0]) < key(x)
    requires SortedBy(tail, key) && multiset(tail) == multiset(s[1..]) + multiset{x}
    ensures SortedBy([s[0]] + tail, key)
  {
    forall k | 0 <= k < |tail| ensures key(s[0]) <= key(tail[k]) {
      assert tail[k] in multiset(tail);
      if tail[k] != x {
        assert tail[k] in multiset(s[1..]);
        var j :| 0 <= j < |s[1..]| && s[1..][j] == tail[k];
        assert s[j + 1] == tail[k];
      }
    }
    var r := [s[0]] + tail;
    forall i, j | 0 <= i < j < |r| ensures key(r[i]) <= key(r[j]) {
      if i > 0 {
        assert r[i] == tail[i - 1] && r[j] == tail[j - 1];
      } else {
        assert r[j] == tail[j - 1];
      }
    }
  }

  /** Insertion sort: a sorted permutation of `s`. */
  function SortBy<T>(s: seq<T>, key: T -> int): (r: seq<T>)
    ensures SortedBy(r, key)
    ensures multiset(r) == multiset(s)
    ensures |r| == |s|
  {
    if s == [] then []
    else
      assert s == [s[0]] + s[1..];
      var r := Insert(s[0], SortBy(s[1..], key), key);
      assert |r| == |multiset(r)|;
      r
  }
}
