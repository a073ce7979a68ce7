/**
 * `Array.prototype.sort` with a numeric comparator, which is stable: elements are ordered
 * by a real-valued key, and elements with equal keys keep their relative order.
 */
module Sorting {

  ghost predicate SortedBy<T>(s: seq<T>, key: T -> real)
  {
    forall i, j :: 0 <= i < j < |s| ==> key(s[i]) <= key(s[j])
  }

  /** The elements whose key is `v`, in order. */
  function WithKey<T>(s: seq<T>, key: T -> real, v: real): seq<T>
  {
    if |s| == 0 then [] else (if key(s[0]) == v then [s[0]] else []) + WithKey(s[1..], key, v)
  }

  lemma {:induction false} WithKeyAppend<T>(a: seq<T>, b: seq<T>, key: T -> real, v: real)
    ensures WithKey(a + b, key, v) == WithKey(a, key, v) + WithKey(b, key, v)
    decreases |a|
  {
    if |a| > 0 {
      assert (a + b)[1..] == a[1..] + b;
      WithKeyAppend(a[1..], b, key, v);
    } else {
      assert a + b == b;
    }
  }

  /** Nothing in a list whose keys all exceed `v` has key `v`. */
  lemma {:induction false} WithKeyAbove<T>(s: seq<T>, key: T -> real, v: real)
    requires forall i :: 0 <= i < |s| ==> v < key(s[i])
    ensures WithKey(s, key, v) == []
    decreases |s|
  {
    if |s| > 0 {
      WithKeyAbove(s[1..], key, v);
    }
  }

  /** Inserts `x` after every element whose key is not greater than its own. */
  function Insert<T>(s: seq<T>, x: T, key: T -> real): (r: seq<T>)
    ensures |r| == |s| + 1
    decreases |s|
  {
    if |s| == 0 then [x]
    else if key(x) < key(s[0]) then [x] + s
    else [s[0]] + Insert(s[1..], x, key)
  }

  /** Inserting into a sorted list keeps it sorted and adds exactly the new element. */
  lemma {:induction false} InsertSorted<T>(s: seq<T>, x: T, key: T -> real)
    requires SortedBy(s, key)
    ensures SortedBy(Insert(s, x, key), key) && multiset(Insert(s, x, key)) == multiset(s) + multiset{x}
    decreases |s|
  {
    if |s| > 0 && key(s[0]) <= key(x) {
      var rest := Insert(s[1..], x, key);
      InsertSorted(s[1..], x, key);
      assert s == [s[0]] + s[1..];
      var r := [s[0]] + rest;
      assert forall i :: 0 < i < |r| ==> key(s[0]) <= key(r[i]) by {
        forall i | 0 < i < |r| ensures key(s[0]) <= key(r[i]) {
          assert r[i] in multiset(rest);
          if r[i] != x {
            assert r[i] in multiset(s[1..]);
            var j :| 0 <= j < |s[1..]| && s[1..][j] == r[i];
            assert s[j + 1] == r[i];
          }
        }
      }
    }
  }

  /** The new element goes behind every element with the same key. */
  lemma {:induction false} InsertAfterTies<T>(s: seq<T>, x: T, key: T -> real, v: real)
    requires SortedBy(s, key)
    ensures WithKey(Insert(s, x, key), key, v) == WithKey(s, key, v) + (if key(x) == v then [x] else [])
    decreases |s|
  {
    var tail := if key(x) == v then [x] else [];
    if |s| == 0 {
      assert WithKey([x], key, v) == tail + WithKey([], key, v);
    } else if key(x) < key(s[0]) {
      if key(x) == v {
        assert forall i :: 0 <= i < |s| ==> v < key(s[i]);
        WithKeyAbove(s, key, v);
      }
      assert ([x] + s)[1..] == s;
    } else {
      var head := if key(s[0]) == v then [s[0]] else [];
      var rest := Insert(s[1..], x, key);
      assert SortedBy(s[1..], key);
      InsertAfterTies(s[1..], x, key, v);
      var r := [s[0]] + rest;
      assert r[1..] == rest;
      calc {
        WithKey(r, key, v);
        head + WithKey(rest, key, v);
        head + (WithKey(s[1..], key, v) + tail);
        (head + WithKey(s[1..], key, v)) + tail;
        WithKey(s, key, v) + tail;
      }
    }
  }

  /** Every element inserted, in order, behind the ones already placed with the same key. */
  function InsertionSorted<T>(s: seq<T>, key: T -> real): (r: seq<T>)
    ensures |r| == |s|
    decreases |s|
  {
    if |s| == 0 then []
    else Insert(InsertionSorted(s[..|s| - 1], key), s[|s| - 1], key)
  }

  lemma {:induction false} InsertionSortedSorts<T>(s: seq<T>, key: T -> real)
    ensures SortedBy(InsertionSorted(s, key), key) && multiset(InsertionSorted(s, key)) == multiset(s)
    decreases |s|
  {
    if |s| > 0 {
      InsertionSortedSorts(s[..|s| - 1], key);
      InsertSorted(InsertionSorted(s[..|s| - 1], key), s[|s| - 1], key);
      assert s == s[..|s| - 1] + [s[|s| - 1]];
    }
  }

  /** The stable sort `Array.prototype.sort` performs: sorted by key, a permutation of its input. */
  function StableSort<T>(s: seq<T>, key: T -> real): (r: seq<T>)
    ensures |r| == |s| && SortedBy(r, key) && multiset(r) == multiset(s)
  {
    InsertionSortedSorts(s, key);
    InsertionSorted(s, key)
  }

  /** Stability: for every key value, the elements with that key appear in their original order. */
  lemma {:induction false} StableSortKeepsTies<T>(s: seq<T>, key: T -> real, v: real)
    ensures WithKey(StableSort(s, key), key, v) == WithKey(s, key, v)
  {
    InsertionSortedKeepsTies(s, key, v);
  }

  lemma {:induction false} InsertionSortedKeepsTies<T>(s: seq<T>, key: T -> real, v: real)
    ensures WithKey(InsertionSorted(s, key), key, v) == WithKey(s, key, v)
    decreases |s|
  {
    if |s| > 0 {
      var init := s[..|s| - 1];
      var x := s[|s| - 1];
      var tail := if key(x) == v then [x] else [];
      var sortedInit := InsertionSorted(init, key);
      InsertionSortedSorts(init, key);
      calc {
        WithKey(InsertionSorted(s, key), key, v);
        WithKey(Insert(sortedInit, x, key), key, v);
        { InsertAfterTies(sortedInit, x, key, v); }
        WithKey(sortedInit, key, v) + tail;
        { InsertionSortedKeepsTies(init, key, v);
          assert WithKey([x], key, v) == tail + WithKey([], key, v); }
        WithKey(init, key, v) + WithKey([x], key, v);
        { WithKeyAppend(init, [x], key, v);
          assert s == init + [x]; }
        WithKey(s, key, v);
      }
    }
  }
}
