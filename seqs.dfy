/** Sequence operations that pandas and Python provide as library calls:
    boolean-mask filtering, `unique()`/`drop_duplicates()`, and `sort()`. */
module Seqs {

  /** Rows of `s` that satisfy `p`, in their original order (a boolean-mask selection). */
  function Filter<T>(s: seq<T>, p: T -> bool): (r: seq<T>)
    ensures |r| <= |s|
    ensures forall i :: 0 <= i < |r| ==> r[i] in s && p(r[i])
    ensures forall i :: 0 <= i < |s| && p(s[i]) ==> s[i] in r
  {
    if s == [] then []
    else (if p(s[0]) then [s[0]] else []) + Filter(s[1..], p)
  }

  /** What the test accepts in either part of a concatenation is selected. */
  lemma FilterConcatKeeps<T>(a: seq<T>, b: seq<T>, p: T -> bool, x: T)
    requires (x in a || x in b) && p(x)
    ensures x in Filter(a + b, p)
  {
    var c := a + b;
    if x in a {
      var k :| 0 <= k < |a| && a[k] == x;
      assert c[k] == x;
    } else {
      var k :| 0 <= k < |b| && b[k] == x;
      assert c[|a| + k] == x;
    }
  }

  /** Selecting from a concatenation selects from each part. */
  lemma {:induction false} FilterConcat<T>(a: seq<T>, b: seq<T>, p: T -> bool)
    ensures Filter(a + b, p) == Filter(a, p) + Filter(b, p)
  {
    if a == [] {
      assert a + b == b;
    } else {
      assert (a + b)[0] == a[0];
      assert (a + b)[1..] == a[1..] + b;
      FilterConcat(a[1..], b, p);
    }
  }

  /** A mask that every row passes keeps the whole sequence. */
  lemma {:induction false} FilterAll<T>(s: seq<T>, p: T -> bool)
    requires forall i :: 0 <= i < |s| ==> p(s[i])
    ensures Filter(s, p) == s
  {
    if s != [] {
      FilterAll(s[1..], p);
    }
  }

  /** Two masks applied in turn are one mask on their conjunction. */
  lemma {:induction false} FilterFilter<T>(s: seq<T>, p: T -> bool, q: T -> bool)
    ensures Filter(Filter(s, p), q) == Filter(s, x => p(x) && q(x))
  {
    var pq := x => p(x) && q(x);
    if s != [] {
      FilterFilter(s[1..], p, q);
      if p(s[0]) {
        var fp := Filter(s, p);
        assert fp == [s[0]] + Filter(s[1..], p);
        assert fp[0] == s[0] && fp[1..] == Filter(s[1..], p);
        assert Filter(fp, q) == (if q(s[0]) then [s[0]] else []) + Filter(Filter(s[1..], p), q);
      } else {
        assert Filter(s, p) == Filter(s[1..], p);
      }
      assert Filter(s, pq) == (if pq(s[0]) then [s[0]] else []) + Filter(s[1..], pq);
    }
  }

  /** No value occurs twice. */
  predicate Distinct<T(==)>(s: seq<T>) {
    forall i, j :: 0 <= i < j < |s| ==> s[i] != s[j]
  }

  /** The position of the first occurrence of `x` in `s`. */
  function FirstIndex<T(==)>(s: seq<T>, x: T): (k: nat)
    requires x in s
    ensures k < |s| && s[k] == x && x !in s[..k]
  {
    if s[0] == x then 0
    else
      assert s[1..][FirstIndex(s[1..], x)] == x;
      assert s[..FirstIndex(s[1..], x) + 1] == [s[0]] + s[1..][..FirstIndex(s[1..], x)];
      FirstIndex(s[1..], x) + 1
  }

  /** Appending to a sequence does not move the first occurrence of a value already in it. */
  lemma {:induction false} FirstIndexAppend<T>(s: seq<T>, y: T, x: T)
    requires x in s
    ensures x in s + [y] && FirstIndex(s + [y], x) == FirstIndex(s, x)
  {
    assert (s + [y])[0] == s[0];
    if s[0] != x {
      assert (s + [y])[1..] == s[1..] + [y];
      FirstIndexAppend(s[1..], y, x);
    }
  }

  /** `unique()` / `drop_duplicates()`: each value of `s` once, in order of first
      appearance (`DedupOrder`). */
  function Dedup<T(==)>(s: seq<T>): (r: seq<T>)
    ensures forall i :: 0 <= i < |r| ==> r[i] in s
    ensures forall i :: 0 <= i < |s| ==> s[i] in r
    ensures Distinct(r)
    ensures |r| <= |s|
  {
    if s == [] then []
    else
      var d := Dedup(s[..|s| - 1]);
      assert forall i :: 0 <= i < |s| - 1 ==> s[i] == s[..|s| - 1][i];
      if s[|s| - 1] in d then d else d + [s[|s| - 1]]
  }

  /** The values of `unique()` come in the order of their first occurrences. */
  lemma {:induction false} DedupOrder<T>(s: seq<T>)
    ensures forall i, j :: 0 <= i < j < |Dedup(s)| ==> FirstIndex(s, Dedup(s)[i]) < FirstIndex(s, Dedup(s)[j])
  {
    if s != [] {
      var init := s[..|s| - 1];
      var last := s[|s| - 1];
      var d := Dedup(init);
      DedupOrder(init);
      assert s == init + [last];
      FirstIndicesAppend(init, last, d);
      OrderTransfer(s, init, d);
      if last in d {
        assert Dedup(s) == d;
      } else {
        assert last !in init;
        assert FirstIndex(s, last) == |init| by {
          assert s[..|init|] == init;
        }
        OrderExtend(s, d, last, |init|);
        assert Dedup(s) == d + [last];
      }
    }
  }

  /** Appending moves the first occurrence of no value already present. */
  lemma FirstIndicesAppend<T>(init: seq<T>, last: T, d: seq<T>)
    requires forall i :: 0 <= i < |d| ==> d[i] in init
    ensures forall i :: 0 <= i < |d| ==>
      d[i] in init + [last] && FirstIndex(init + [last], d[i]) == FirstIndex(init, d[i]) < |init|
  {
    forall i | 0 <= i < |d|
      ensures d[i] in init + [last] && FirstIndex(init + [last], d[i]) == FirstIndex(init, d[i]) < |init|
    {
      FirstIndexAppend(init, last, d[i]);
    }
  }

  /** Values whose first occurrences do not move keep their order. */
  lemma OrderTransfer<T>(s: seq<T>, init: seq<T>, d: seq<T>)
    requires forall i :: 0 <= i < |d| ==> d[i] in init && d[i] in s && FirstIndex(s, d[i]) == FirstIndex(init, d[i])
    requires forall i, j :: 0 <= i < j < |d| ==> FirstIndex(init, d[i]) < FirstIndex(init, d[j])
    ensures forall i, j :: 0 <= i < j < |d| ==> FirstIndex(s, d[i]) < FirstIndex(s, d[j])
  {
  }

  /** A value placed after values that all occur first before position `n`, itself
      occurring first at `n`, keeps the order of first occurrences. */
  lemma OrderExtend<T>(s: seq<T>, d: seq<T>, last: T, n: nat)
    requires forall i :: 0 <= i < |d| ==> d[i] in s && FirstIndex(s, d[i]) < n
    requires forall i, j :: 0 <= i < j < |d| ==> FirstIndex(s, d[i]) < FirstIndex(s, d[j])
    requires last in s && FirstIndex(s, last) == n
    ensures forall i, j :: 0 <= i < j < |d + [last]| ==>
      FirstIndex(s, (d + [last])[i]) < FirstIndex(s, (d + [last])[j])
  {
    var r := d + [last];
    assert forall i :: 0 <= i < |d| ==> r[i] == d[i];
  }

  /** Every neighbouring pair is in order. */
  ghost predicate Sorted<T>(s: seq<T>, le: (T, T) -> bool) {
    forall i :: 0 < i < |s| ==> le(s[i - 1], s[i])
  }

  /** `le` compares every two values one way or the other. */
  ghost predicate Total<T(!new)>(le: (T, T) -> bool) {
    forall a, b :: le(a, b) || le(b, a)
  }

  /** Inserts `x` before the first element it is not above. */
  function Insert<T(!new)>(x: T, s: seq<T>, le: (T, T) -> bool): (r: seq<T>)
    ensures |r| == |s| + 1
    ensures multiset(r) == multiset(s) + multiset{x}
    ensures r[0] == x || (s != [] && r[0] == s[0])
    ensures Total(le) && Sorted(s, le) ==> Sorted(r, le)
  {
    if s == [] || le(x, s[0]) then [x] + s
    else
      assert s == [s[0]] + s[1..];
      [s[0]] + Insert(x, s[1..], le)
  }

  /** Python's `list.sort()`: a permutation of `s` in ascending order. For a total
      order whose ties are equal values the sorted permutation is unique, so the
      choice of algorithm (insertion sort here) does not show. */
  function InsertionSort<T(!new)>(s: seq<T>, le: (T, T) -> bool): (r: seq<T>)
    ensures |r| == |s|
    ensures multiset(r) == multiset(s)
    ensures Total(le) ==> Sorted(r, le)
  {
    if s == [] then []
    else
      assert s == [s[0]] + s[1..];
      Insert(s[0], InsertionSort(s[1..], le), le)
  }

  /** Inserting a new value into a sequence without repeats keeps it without repeats. */
  lemma {:induction false} InsertDistinct<T(!new)>(x: T, s: seq<T>, le: (T, T) -> bool)
    requires Distinct(s) && x !in s
    ensures Distinct(Insert(x, s, le))
  {
    if s != [] && !le(x, s[0]) {
      var t := Insert(x, s[1..], le);
      InsertDistinct(x, s[1..], le);
      assert s[0] !in multiset(t);
      var r := [s[0]] + t;
      forall i, j | 0 <= i < j < |r| ensures r[i] != r[j] {
        if i == 0 {
          assert r[j] == t[j - 1];
        }
      }
    }
  }

  /** Sorting a sequence without repeats gives a sequence without repeats. */
  lemma {:induction false} InsertionSortDistinct<T(!new)>(s: seq<T>, le: (T, T) -> bool)
    requires Distinct(s)
    ensures Distinct(InsertionSort(s, le))
  {
    if s != [] {
      InsertionSortDistinct(s[1..], le);
      assert s[0] !in s[1..];
      assert s[0] !in multiset(InsertionSort(s[1..], le));
      InsertDistinct(s[0], InsertionSort(s[1..], le), le);
    }
  }

  /** A dictionary built from `s` keyed by `key`, as pandas' `to_dict` builds one:
      a later element overwrites an earlier one with the same key. */
  function ToDict<T, K(==), V>(s: seq<T>, key: T -> K, val: T -> V): map<K, V> {
    if s == [] then map[]
    else ToDict(s[..|s| - 1], key, val)[key(s[|s| - 1]) := val(s[|s| - 1])]
  }

  /** The dictionary's keys are exactly the elements' keys, and each value is the
      value of an element with that key. */
  lemma {:induction false} ToDictKeys<T, K, V>(s: seq<T>, key: T -> K, val: T -> V)
    ensures forall i :: 0 <= i < |s| ==> key(s[i]) in ToDict(s, key, val)
    ensures forall k :: k in ToDict(s, key, val) ==>
      exists i :: 0 <= i < |s| && key(s[i]) == k && ToDict(s, key, val)[k] == val(s[i])
  {
    if s != [] {
      var init := s[..|s| - 1];
      ToDictKeys(init, key, val);
      assert forall i :: 0 <= i < |init| ==> init[i] == s[i];
    }
  }

  /** The last element with a given key decides that key's value. */
  lemma {:induction false} ToDictLastWins<T, K, V>(s: seq<T>, key: T -> K, val: T -> V, i: nat)
    requires i < |s|
    requires forall j :: i < j < |s| ==> key(s[j]) != key(s[i])
    ensures key(s[i]) in ToDict(s, key, val) && ToDict(s, key, val)[key(s[i])] == val(s[i])
  {
    if i < |s| - 1 {
      var init := s[..|s| - 1];
      assert forall j :: 0 <= j < |init| ==> init[j] == s[j];
      ToDictLastWins(init, key, val, i);
    }
  }
}
