/** Stable sorting of a sequence by an integer key, ascending. A JavaScript
    comparator of the form `key(a) - key(b)` used with the (stable)
    `Array.prototype.sort` produces exactly this ordering; a descending
    comparator is the ascending one on the negated key, and a comparator that
    always returns 0 is a constant key. */
module Sorting {

  /** Non-decreasing by key. */
  ghost predicate SortedBy<T>(s: seq<T>, key: T -> int)
  {
    forall i, j :: 0 <= i < j < |s| ==> key(s[i]) <= key(s[j])
  }

  /** Inserts x before the first element whose key is not smaller, so that x
      stays ahead of elements with an equal key that came after it. */
  function Insert<T>(x: T, s: seq<T>, key: T -> int): (r: seq<T>)
    ensures |r| == |s| + 1
    ensures multiset(r) == multiset(s) + multiset{x}
  {
    if |s| == 0 then [x]
    else if key(x) <= key(s[0]) then [x] + s
    else
      assert s == [s[0]] + s[1..];
      [s[0]] + Insert(x, s[1..], key)
  }

  /** Putting an element no larger than any other in front keeps a sorted
      sequence sorted. */
  lemma SortedCons<T>(y: T, r: seq<T>, key: T -> int)
    requires SortedBy(r, key)
    requires forall i :: 0 <= i < |r| ==> key(y) <= key(r[i])
    ensures SortedBy([y] + r, key)
  {
    var c := [y] + r;
    forall i, j | 0 <= i < j < |c|
      ensures key(c[i]) <= key(c[j])
    {
      assert c[j] == r[j - 1];
      if i > 0 { assert c[i] == r[i - 1]; }
    }
  }

  /** The tail of a sorted sequence is sorted and bounded below by its head. */
  lemma SortedTail<T>(s: seq<T>, key: T -> int)
    requires SortedBy(s, key) && |s| > 0
    ensures SortedBy(s[1..], key)
    ensures forall i :: 0 <= i < |s| - 1 ==> key(s[0]) <= key(s[1..][i])
  {
    var tail := s[1..];
    forall i, j | 0 <= i < j < |tail|
      ensures key(tail[i]) <= key(tail[j])
    {
      assert tail[i] == s[i + 1] && tail[j] == s[j + 1];
    }
    forall i | 0 <= i < |tail|
      ensures key(s[0]) <= key(tail[i])
    {
      assert tail[i] == s[i + 1];
    }
  }

  /** A lower bound on the keys of `x` and of `s` bounds the keys after
      inserting. */
  lemma {:induction false} InsertLowerBound<T>(x: T, s: seq<T>, key: T -> int, b: int)
    requires b <= key(x)
    requires forall i :: 0 <= i < |s| ==> b <= key(s[i])
    ensures forall i :: 0 <= i < |Insert(x, s, key)| ==> b <= key(Insert(x, s, key)[i])
  {
    if |s| == 0 {
      assert Insert(x, s, key) == [x];
    } else if key(x) <= key(s[0]) {
      var r := [x] + s;
      assert Insert(x, s, key) == r;
      forall i | 0 <= i < |r|
        ensures b <= key(r[i])
      {
        if i > 0 { assert r[i] == s[i - 1]; }
      }
    } else {
      var tail := s[1..];
      forall i | 0 <= i < |tail|
        ensures b <= key(tail[i])
      {
        assert tail[i] == s[i + 1];
      }
      InsertLowerBound(x, tail, key, b);
      var rest := Insert(x, tail, key);
      var r := [s[0]] + rest;
      assert Insert(x, s, key) == r;
      forall i | 0 <= i < |r|
        ensures b <= key(r[i])
      {
        if i > 0 { assert r[i] == rest[i - 1]; }
      }
    }
  }

  lemma {:induction false} InsertSorted<T>(x: T, s: seq<T>, key: T -> int)
    requires SortedBy(s, key)
    ensures SortedBy(Insert(x, s, key), key)
  {
    if |s| == 0 {
      assert Insert(x, s, key) == [x];
    } else if key(x) <= key(s[0]) {
      assert Insert(x, s, key) == [x] + s;
      SortedTail(s, key);
      SortedCons(x, s, key);
    } else {
      var tail := s[1..];
      SortedTail(s, key);
      InsertSorted(x, tail, key);
      InsertLowerBound(x, tail, key, key(s[0]));
      assert Insert(x, s, key) == [s[0]] + Insert(x, tail, key);
      SortedCons(s[0], Insert(x, tail, key), key);
    }
  }

  lemma MultisetCons<T>(s: seq<T>)
    requires |s| > 0
    ensures multiset(s) == multiset(s[1..]) + multiset{s[0]}
  {
    assert s == [s[0]] + s[1..];
  }

  /** Insertion sort: stable, ascending by key, a permutation of its input. */
  function SortBy<T>(s: seq<T>, key: T -> int): (r: seq<T>)
    ensures SortedBy(r, key)
    ensures multiset(r) == multiset(s)
    ensures |r| == |s|
  {
    if |s| == 0 then []
    else
      var t := SortBy(s[1..], key);
      InsertSorted(s[0], t, key);
      MultisetCons(s);
      Insert(s[0], t, key)
  }

  /** Sorting a sequence that is already ordered returns it unchanged; in
      particular a comparator that always answers 0 keeps the original
      order. */
  lemma {:induction false} SortedIsFixpoint<T>(s: seq<T>, key: T -> int)
    requires SortedBy(s, key)
    ensures SortBy(s, key) == s
  {
    if |s| > 0 {
      var tail := s[1..];
      SortedTail(s, key);
      SortedIsFixpoint(tail, key);
      assert SortBy(s, key) == Insert(s[0], tail, key);
      if |tail| > 0 {
        assert key(s[0]) <= key(tail[0]);
      }
      assert Insert(s[0], tail, key) == [s[0]] + tail;
      assert [s[0]] + tail == s;
    }
  }

  /** The elements whose key is `k`, in their order in `s`. */
  function WithKey<T>(s: seq<T>, key: T -> int, k: int): seq<T>
  {
    if |s| == 0 then []
    else (if key(s[0]) == k then [s[0]] else []) + WithKey(s[1..], key, k)
  }

  lemma WithKeyCons<T>(y: T, r: seq<T>, key: T -> int, k: int)
    ensures WithKey([y] + r, key, k) == (if key(y) == k then [y] else []) + WithKey(r, key, k)
  {
    assert ([y] + r)[0] == y;
    assert ([y] + r)[1..] == r;
  }

  /** Inserting `x` places it ahead of every element with its key and
      leaves the order of every group of equal keys as it was. */
  lemma {:induction false} InsertWithKey<T>(x: T, t: seq<T>, key: T -> int, k: int)
    ensures WithKey(Insert(x, t, key), key, k) == (if key(x) == k then [x] else []) + WithKey(t, key, k)
  {
    if |t| == 0 || key(x) <= key(t[0]) {
      assert Insert(x, t, key) == [x] + t;
      WithKeyCons(x, t, key, k);
    } else {
      var tail := t[1..];
      var rest := Insert(x, tail, key);
      assert Insert(x, t, key) == [t[0]] + rest;
      assert t == [t[0]] + tail;
      WithKeyCons(t[0], rest, key, k);
      WithKeyCons(t[0], tail, key, k);
      InsertWithKey(x, tail, key, k);
      if key(t[0]) == k {
        assert key(x) != k;
      }
    }
  }

  /** Stability: for every key value, the elements with that key come out
      in the order they went in. */
  lemma {:induction false} SortStable<T>(s: seq<T>, key: T -> int, k: int)
    ensures WithKey(SortBy(s, key), key, k) == WithKey(s, key, k)
  {
    if |s| > 0 {
      SortStable(s[1..], key, k);
      InsertWithKey(s[0], SortBy(s[1..], key), key, k);
    }
  }
}
