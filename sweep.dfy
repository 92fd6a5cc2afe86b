/** Counting lemmas behind `create_barrio_agg_ser_df`: hour histograms
    (`value_counts`), their aligned difference, its running sum (`cumsum`) and
    the forward-filled lookup (`reindex(method="ffill").fillna(0)`). */
module Sweep {

  /** Number of entries of `xs` equal to `h` (`value_counts()[h]`, 0 when absent). */
  function CountAt(xs: seq<int>, h: int): (n: nat)
    ensures n <= |xs|
  {
    if xs == [] then 0 else (if xs[0] == h then 1 else 0) + CountAt(xs[1..], h)
  }

  /** Number of entries of `xs` at or below `h`. */
  function CountUpTo(xs: seq<int>, h: int): (n: nat)
    ensures n <= |xs|
  {
    if xs == [] then 0 else (if xs[0] <= h then 1 else 0) + CountUpTo(xs[1..], h)
  }

  /** Between two values with nothing of `xs` strictly between them, the count up to
      the upper one adds exactly the entries equal to it. */
  lemma {:induction false} CountUpToStep(xs: seq<int>, a: int, b: int)
    requires a < b
    requires forall i :: 0 <= i < |xs| ==> !(a < xs[i] < b)
    ensures CountUpTo(xs, b) == CountUpTo(xs, a) + CountAt(xs, b)
  {
    if xs != [] {
      CountUpToStep(xs[1..], a, b);
    }
  }

  /** With nothing of `xs` below `b`, the count up to `b` is the count at `b`. */
  lemma {:induction false} CountUpToFirst(xs: seq<int>, b: int)
    requires forall i :: 0 <= i < |xs| ==> xs[i] >= b
    ensures CountUpTo(xs, b) == CountAt(xs, b)
  {
    if xs != [] {
      CountUpToFirst(xs[1..], b);
    }
  }

  /** With nothing of `xs` in `(a, h]`, the count does not move from `a` to `h`. */
  lemma {:induction false} CountUpToFlat(xs: seq<int>, a: int, h: int)
    requires a <= h
    requires forall i :: 0 <= i < |xs| ==> !(a < xs[i] <= h)
    ensures CountUpTo(xs, h) == CountUpTo(xs, a)
  {
    if xs != [] {
      CountUpToFlat(xs[1..], a, h);
    }
  }

  /** Nothing of `xs` at or below `h`: the count is 0. */
  lemma {:induction false} CountUpToNone(xs: seq<int>, h: int)
    requires forall i :: 0 <= i < |xs| ==> xs[i] > h
    ensures CountUpTo(xs, h) == 0
  {
    if xs != [] {
      CountUpToNone(xs[1..], h);
    }
  }

  /** Everything of `xs` at or below `h`: the count is `|xs|`. */
  lemma {:induction false} CountUpToAll(xs: seq<int>, h: int)
    requires forall i :: 0 <= i < |xs| ==> xs[i] <= h
    ensures CountUpTo(xs, h) == |xs|
  {
    if xs != [] {
      CountUpToAll(xs[1..], h);
    }
  }

  /** Strictly increasing. */
  predicate Increasing(ks: seq<int>) {
    forall i, j :: 0 <= i < j < |ks| ==> ks[i] < ks[j]
  }

  /** Adds `x` to an increasing sequence unless it is already there. */
  function InsertUnique(x: int, ks: seq<int>): (r: seq<int>)
    requires Increasing(ks)
    ensures Increasing(r)
    ensures forall y :: y in r <==> y in ks || y == x
  {
    if ks == [] then [x]
    else if x < ks[0] then [x] + ks
    else if x == ks[0] then ks
    else
      var t := InsertUnique(x, ks[1..]);
      assert forall i :: 0 <= i < |t| ==> t[i] > ks[0] by {
        forall i | 0 <= i < |t| ensures t[i] > ks[0] {
          assert t[i] in t;
          if t[i] != x {
            var k :| 0 <= k < |ks[1..]| && ks[1..][k] == t[i];
            assert ks[k + 1] == t[i];
          }
        }
      }
      [ks[0]] + t
  }

  /** The sorted distinct values of `xs`: the index of a sorted `value_counts()`. */
  function SortedKeys(xs: seq<int>): (ks: seq<int>)
    ensures Increasing(ks)
    ensures forall y :: y in ks <==> y in xs
  {
    if xs == [] then []
    else
      var r := InsertUnique(xs[|xs| - 1], SortedKeys(xs[..|xs| - 1]));
      assert xs == xs[..|xs| - 1] + [xs[|xs| - 1]];
      r
  }

  /** `sum(d[:n])`. */
  function PrefixSum(d: seq<int>, n: nat): int
    requires n <= |d|
  {
    if n == 0 then 0 else PrefixSum(d, n - 1) + d[n - 1]
  }

  /** `Series.cumsum()`. */
  function CumSum(d: seq<int>): (c: seq<int>)
    ensures |c| == |d|
    ensures forall i :: 0 <= i < |d| ==> c[i] == PrefixSum(d, i + 1)
  {
    seq(|d|, i requires 0 <= i < |d| => PrefixSum(d, i + 1))
  }

  /** Position of the last key at or below `h` in an increasing key list: the row
      `reindex(method="ffill")` copies into hour `h`. */
  function LastAtOrBefore(ks: seq<int>, h: int): (r: int)
    requires Increasing(ks)
    ensures -1 <= r < |ks|
    ensures r >= 0 ==> ks[r] <= h
    ensures forall i :: r < i < |ks| ==> ks[i] > h
  {
    if ks == [] || ks[|ks| - 1] <= h then |ks| - 1 else LastAtOrBefore(ks[..|ks| - 1], h)
  }

  /** `start_times.subtract(end_times, fill_value=0)` on the union index `ks`. */
  function Deltas(ks: seq<int>, xs: seq<int>, ys: seq<int>): (d: seq<int>)
    ensures |d| == |ks|
    ensures forall j :: 0 <= j < |ks| ==> d[j] == CountAt(xs, ks[j]) - CountAt(ys, ks[j])
  {
    seq(|ks|, j requires 0 <= j < |ks| => CountAt(xs, ks[j]) - CountAt(ys, ks[j]))
  }

  /** `series.reindex([h], method="ffill").fillna(0)` for a series with increasing index
      `ks` and values `c`. */
  function FfillAt(ks: seq<int>, c: seq<int>, h: int): int
    requires Increasing(ks) && |c| == |ks|
  {
    var r := LastAtOrBefore(ks, h);
    if r < 0 then 0 else c[r]
  }

  /** The whole chain for start hours `xs` and end hours `ys`, read at hour `h`. */
  function SweepAt(xs: seq<int>, ys: seq<int>, h: int): int {
    var ks := SortedKeys(xs + ys);
    FfillAt(ks, CumSum(Deltas(ks, xs, ys)), h)
  }

  /** Every value of `xs` is a key. */
  ghost predicate Covers(ks: seq<int>, xs: seq<int>) {
    forall i :: 0 <= i < |xs| ==> xs[i] in ks
  }

  /** No value of `xs` lies strictly between two neighbouring keys, nor below the first. */
  lemma NoValueBetweenKeys(ks: seq<int>, xs: seq<int>, i: nat)
    requires Increasing(ks) && Covers(ks, xs) && i < |ks|
    ensures i == 0 ==> forall k :: 0 <= k < |xs| ==> xs[k] >= ks[0]
    ensures i > 0 ==> forall k :: 0 <= k < |xs| ==> !(ks[i - 1] < xs[k] < ks[i])
  {
    forall k | 0 <= k < |xs|
      ensures i == 0 ==> xs[k] >= ks[0]
      ensures i > 0 ==> !(ks[i - 1] < xs[k] < ks[i])
    {
      var m :| 0 <= m < |ks| && ks[m] == xs[k];
      if i > 0 {
        assert m <= i - 1 || m >= i;
      }
    }
  }

  /** The running sum of the aligned differences at the `i`-th key counts the starts
      at or before that key minus the ends at or before it. */
  lemma {:induction false} CumSumCounts(ks: seq<int>, xs: seq<int>, ys: seq<int>, i: nat)
    requires Increasing(ks) && Covers(ks, xs) && Covers(ks, ys) && i < |ks|
    ensures PrefixSum(Deltas(ks, xs, ys), i + 1) == CountUpTo(xs, ks[i]) - CountUpTo(ys, ks[i])
  {
    NoValueBetweenKeys(ks, xs, i);
    NoValueBetweenKeys(ks, ys, i);
    if i == 0 {
      CountUpToFirst(xs, ks[0]);
      CountUpToFirst(ys, ks[0]);
    } else {
      CumSumCounts(ks, xs, ys, i - 1);
      CountUpToStep(xs, ks[i - 1], ks[i]);
      CountUpToStep(ys, ks[i - 1], ks[i]);
    }
  }

  /** Forward fill between keys: with no key in `(ks[r], h]`, no value of `xs` is there. */
  lemma NoValueAfterKey(ks: seq<int>, xs: seq<int>, h: int)
    requires Increasing(ks) && Covers(ks, xs)
    ensures var r := LastAtOrBefore(ks, h);
      if r < 0 then forall k :: 0 <= k < |xs| ==> xs[k] > h
      else forall k :: 0 <= k < |xs| ==> !(ks[r] < xs[k] <= h)
  {
    var r := LastAtOrBefore(ks, h);
    forall k | 0 <= k < |xs|
      ensures r < 0 ==> xs[k] > h
      ensures r >= 0 ==> !(ks[r] < xs[k] <= h)
    {
      var m :| 0 <= m < |ks| && ks[m] == xs[k];
      assert m <= r || m > r;
    }
  }

  /** The sweep line is exact: at every hour `h` the forward-filled running sum equals
      the number of starts at or before `h` minus the number of ends at or before `h`. */
  lemma SweepCounts(xs: seq<int>, ys: seq<int>, h: int)
    ensures SweepAt(xs, ys, h) == CountUpTo(xs, h) - CountUpTo(ys, h)
  {
    var ks := SortedKeys(xs + ys);
    assert Covers(ks, xs) by {
      forall i | 0 <= i < |xs| ensures xs[i] in ks {
        assert (xs + ys)[i] == xs[i];
      }
    }
    assert Covers(ks, ys) by {
      forall i | 0 <= i < |ys| ensures ys[i] in ks {
        assert (xs + ys)[|xs| + i] == ys[i];
      }
    }
    var r := LastAtOrBefore(ks, h);
    NoValueAfterKey(ks, xs, h);
    NoValueAfterKey(ks, ys, h);
    if r < 0 {
      CountUpToNone(xs, h);
      CountUpToNone(ys, h);
    } else {
      CumSumCounts(ks, xs, ys, r);
      CountUpToFlat(xs, ks[r], h);
      CountUpToFlat(ys, ks[r], h);
    }
  }

  /** `SweepCounts` at every hour at once. */
  lemma SweepCountsEverywhere(xs: seq<int>, ys: seq<int>)
    ensures forall h :: SweepAt(xs, ys, h) == CountUpTo(xs, h) - CountUpTo(ys, h)
  {
    forall h ensures SweepAt(xs, ys, h) == CountUpTo(xs, h) - CountUpTo(ys, h) {
      SweepCounts(xs, ys, h);
    }
  }

  /** One more entry adds one to the count exactly when it is at or below `h`. */
  lemma {:induction false} CountUpToAppend(xs: seq<int>, x: int, h: int)
    ensures CountUpTo(xs + [x], h) == CountUpTo(xs, h) + (if x <= h then 1 else 0)
  {
    if xs != [] {
      assert (xs + [x])[1..] == xs[1..] + [x];
      CountUpToAppend(xs[1..], x, h);
    }
  }

  /** Raising every entry can only lower the count. */
  lemma {:induction false} CountUpToMonotone(xs: seq<int>, ys: seq<int>, h: int)
    requires |xs| == |ys|
    requires forall i :: 0 <= i < |xs| ==> xs[i] <= ys[i]
    ensures CountUpTo(ys, h) <= CountUpTo(xs, h)
  {
    if xs != [] {
      CountUpToMonotone(xs[1..], ys[1..], h);
    }
  }

  /** The forward-filled running sums read at the `n` hours from `lo` on: each is the
      number of starts minus the number of ends at or before its hour. */
  function SweepGrid(xs: seq<int>, ys: seq<int>, lo: int, n: nat): (v: seq<int>)
    ensures |v| == n
    ensures forall i :: 0 <= i < n ==> v[i] == CountUpTo(xs, lo + i) - CountUpTo(ys, lo + i)
  {
    var v := seq(n, i requires 0 <= i < n => SweepAt(xs, ys, lo + i));
    assert forall i :: 0 <= i < n ==> v[i] == CountUpTo(xs, lo + i) - CountUpTo(ys, lo + i) by {
      SweepCountsEverywhere(xs, ys);
    }
    v
  }
}
