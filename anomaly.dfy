/** The robust anomaly scorer of lib/anomaly.ts: drop non-finite values, take
    the median and the median absolute deviation (MAD) of what is left, and
    score the last finite value by its robust z-score, clamped at 5 and scaled
    to 0-100. Arithmetic is exact (`real`); `eps` and the 1.4826 consistency
    constant are kept as given. */
module Anomaly {
  import opened Common
  import opened Aqi
  import opened Types

  const Eps: real := 0.000001
  const MadScale: real := 1.4826
  const ZCap: real := 5.0

  function Abs(x: real): (r: real)
    ensures r >= 0.0 && (r == x || r == -x)
  {
    if x < 0.0 then -x else x
  }

  /** `!isNaN(v) && isFinite(v)`. */
  predicate IsFinite(r: Reading)
  {
    r.Finite?
  }

  /** `series.map(p => p.value).filter(v => !isNaN(v) && isFinite(v))`. */
  function FiniteValues(series: seq<SeriesPoint>): (vs: seq<real>)
    ensures |vs| <= |series|
  {
    if series == [] then [] else PointValue(series[0]) + FiniteValues(series[1..])
  }

  /** What one point contributes: its value when finite, nothing otherwise. */
  function PointValue(p: SeriesPoint): (vs: seq<real>)
    ensures |vs| <= 1
    ensures |vs| == 1 <==> IsFinite(p.value)
    ensures forall v :: v in vs <==> p.value == Finite(v)
  {
    if IsFinite(p.value) then [p.value.v] else []
  }

  /** A value is kept exactly when some point carries it as a finite reading. */
  lemma {:induction false} FiniteValuesMeaning(s: seq<SeriesPoint>)
    ensures forall v :: v in FiniteValues(s) <==> exists i :: 0 <= i < |s| && s[i].value == Finite(v)
  {
    if s != [] {
      FiniteValuesMeaning(s[1..]);
      forall v
        ensures v in FiniteValues(s) <==> exists i :: 0 <= i < |s| && s[i].value == Finite(v)
      {
        assert FiniteValues(s) == PointValue(s[0]) + FiniteValues(s[1..]);
        if exists i :: 0 <= i < |s| && s[i].value == Finite(v) {
          var i :| 0 <= i < |s| && s[i].value == Finite(v);
          if i > 0 {
            assert s[1..][i - 1] == s[i];
          }
        }
        if v in FiniteValues(s[1..]) {
          var j :| 0 <= j < |s[1..]| && s[1..][j].value == Finite(v);
          assert s[j + 1] == s[1..][j];
        }
      }
    }
  }

  /** With no non-finite point, the values are the points' values in order. */
  lemma {:induction false} FiniteValuesAllFinite(s: seq<SeriesPoint>)
    requires forall i :: 0 <= i < |s| ==> IsFinite(s[i].value)
    ensures |FiniteValues(s)| == |s|
    ensures forall i :: 0 <= i < |s| ==> s[i].value == Finite(FiniteValues(s)[i])
  {
    if s != [] {
      FiniteValuesAllFinite(s[1..]);
      assert FiniteValues(s) == PointValue(s[0]) + FiniteValues(s[1..]);
    }
  }

  lemma {:induction false} FiniteValuesConcat(a: seq<SeriesPoint>, b: seq<SeriesPoint>)
    ensures FiniteValues(a + b) == FiniteValues(a) + FiniteValues(b)
  {
    if a == [] {
      assert a + b == b;
    } else {
      var h := PointValue(a[0]);
      assert (a + b)[0] == a[0];
      assert (a + b)[1..] == a[1..] + b;
      assert FiniteValues(a + b) == h + FiniteValues(a[1..] + b);
      FiniteValuesConcat(a[1..], b);
      assert h + (FiniteValues(a[1..]) + FiniteValues(b)) == (h + FiniteValues(a[1..])) + FiniteValues(b);
    }
  }

  // ---------------------------------------------------------------------
  // Sorting (`[...values].sort((a, b) => a - b)`)

  predicate Sorted(s: seq<real>)
  {
    forall i, j :: 0 <= i < j < |s| ==> s[i] <= s[j]
  }

  function Insert(x: real, s: seq<real>): (r: seq<real>)
    requires Sorted(s)
    ensures Sorted(r) && multiset(r) == multiset(s) + multiset{x}
  {
    if s == [] then [x]
    else if x <= s[0] then [x] + s
    else
      var rest := Insert(x, s[1..]);
      InsertBehindHead(x, s, rest);
      [s[0]] + rest
  }

  /** Putting the head in front of the tail with x inserted is sorted and holds
      the values of s and x. */
  lemma InsertBehindHead(x: real, s: seq<real>, rest: seq<real>)
    requires Sorted(s) && |s| > 0 && x > s[0]
    requires Sorted(rest) && multiset(rest) == multiset(s[1..]) + multiset{x}
    ensures Sorted([s[0]] + rest) && multiset([s[0]] + rest) == multiset(s) + multiset{x}
  {
    assert s == [s[0]] + s[1..];
    HeadBelowRest(x, s, rest);
    var r := [s[0]] + rest;
    forall i, j | 0 <= i < j < |r| ensures r[i] <= r[j] {
      assert r[j] == rest[j - 1];
      if i > 0 {
        assert r[i] == rest[i - 1];
      }
    }
  }

  /** Every value of a permutation of the tail plus a larger x is no smaller
      than the head. */
  lemma HeadBelowRest(x: real, s: seq<real>, rest: seq<real>)
    requires Sorted(s) && |s| > 0 && x > s[0]
    requires multiset(rest) == multiset(s[1..]) + multiset{x}
    ensures forall k :: 0 <= k < |rest| ==> s[0] <= rest[k]
  {
    forall k | 0 <= k < |rest| ensures s[0] <= rest[k] {
      assert rest[k] in multiset(rest);
      if rest[k] != x {
        assert rest[k] in multiset(s[1..]);
        var j :| 0 <= j < |s[1..]| && s[1..][j] == rest[k];
        assert s[j + 1] == rest[k];
      }
    }
  }

  /** An ascending copy of s. */
  function Sort(s: seq<real>): (r: seq<real>)
    ensures Sorted(r) && multiset(r) == multiset(s) && |r| == |s|
  {
    if s == [] then []
    else
      assert s == [s[0]] + s[1..];
      Insert(s[0], Sort(s[1..]))
  }

  /** Two ascending sequences with the same elements are equal, so the sorted
      copy depends only on the multiset of values. */
  lemma {:induction false} SortedUnique(x: seq<real>, y: seq<real>)
    requires Sorted(x) && Sorted(y) && multiset(x) == multiset(y)
    ensures x == y
  {
    assert |x| == |multiset(x)| == |y|;
    if x != [] {
      assert x[0] in multiset(y);
      assert y[0] in multiset(x);
      assert x[0] == y[0];
      assert x == [x[0]] + x[1..];
      assert y == [y[0]] + y[1..];
      assert multiset(x) == multiset{x[0]} + multiset(x[1..]);
      assert multiset(y) == multiset{y[0]} + multiset(y[1..]);
      assert multiset(x[1..]) == multiset(x) - multiset{x[0]};
      assert multiset(y[1..]) == multiset(y) - multiset{y[0]};
      SortedUnique(x[1..], y[1..]);
    }
  }

  // ---------------------------------------------------------------------
  // Median and MAD

  /** The middle element of a sorted sequence of odd length, or the mean of the
      two middle elements of one of even length. */
  function MedianOfSorted(s: seq<real>): real
    requires |s| > 0
  {
    var mid := |s| / 2;
    if |s| % 2 == 0 then (s[mid - 1] + s[mid]) / 2.0 else s[mid]
  }

  function Median(values: seq<real>): real
    requires |values| > 0
  {
    MedianOfSorted(Sort(values))
  }

  /** `values.map(v => Math.abs(v - median))`. */
  function AbsDeviations(values: seq<real>, m: real): (d: seq<real>)
    ensures |d| == |values|
    ensures forall i :: 0 <= i < |values| ==> d[i] == Abs(values[i] - m)
  {
    seq(|values|, i requires 0 <= i < |values| => Abs(values[i] - m))
  }

  /** The median absolute deviation. */
  function Mad(values: seq<real>): real
    requires |values| > 0
  {
    Median(AbsDeviations(values, Median(values)))
  }

  /** The median of a sorted sequence lies between its first and last elements. */
  lemma MedianOfSortedWithin(s: seq<real>)
    requires |s| > 0 && Sorted(s)
    ensures s[0] <= MedianOfSorted(s) <= s[|s| - 1]
  {
  }

  /** The median lies between the smallest and the largest value. */
  lemma MedianBetween(values: seq<real>)
    requires |values| > 0
    ensures exists i :: 0 <= i < |values| && values[i] <= Median(values)
    ensures exists j :: 0 <= j < |values| && Median(values) <= values[j]
  {
    var t := Sort(values);
    MedianOfSortedWithin(t);
    assert t[0] in multiset(values);
    assert t[|t| - 1] in multiset(values);
    var i :| 0 <= i < |values| && values[i] == t[0];
    var j :| 0 <= j < |values| && values[j] == t[|t| - 1];
  }

  /** The MAD is never negative. */
  lemma MadNonNegative(values: seq<real>)
    requires |values| > 0
    ensures Mad(values) >= 0.0
  {
    var d := AbsDeviations(values, Median(values));
    MedianBetween(d);
  }

  // ---------------------------------------------------------------------
  // Score

  /** The denominator `1.4826 * mad + eps` of the robust z-score. */
  function Scale(mad: real): (d: real)
    requires mad >= 0.0
    ensures d >= Eps
  {
    MadScale * mad + Eps
  }

  lemma DivNonNegative(a: real, b: real)
    requires a >= 0.0 && b > 0.0
    ensures a / b >= 0.0
  {
  }

  /** `|x - median| / (1.4826 * mad + eps)`. */
  function ZFrom(x: real, median: real, mad: real): (z: real)
    requires mad >= 0.0
    ensures z >= 0.0
  {
    var d := Abs(x - median);
    var s := Scale(mad);
    DivNonNegative(d, s);
    d / s
  }

  /** The robust z-score of the last finite value. */
  function ZScore(values: seq<real>): (z: real)
    requires |values| > 0
    ensures z >= 0.0
  {
    MadNonNegative(values);
    ZFrom(values[|values| - 1], Median(values), Mad(values))
  }

  /** `Math.min(z, 5)` scaled to 0-100 and rounded. */
  function ScaleScore(z: real): (score: int)
    requires z >= 0.0
    ensures 0 <= score <= 100
  {
    var clamped := if z < ZCap then z else ZCap;
    RoundWithin(clamped / ZCap * 100.0, 0, 100);
    Round(clamped / ZCap * 100.0)
  }

  /** `computeAnomaly`: always an integer in [0, 100]. */
  function ComputeAnomaly(series: seq<SeriesPoint>): (score: int)
    ensures 0 <= score <= 100
  {
    if |series| == 0 then 0
    else
      var values := FiniteValues(series);
      if |values| == 0 then 0
      else ScaleScore(ZScore(values))
  }

  // ---------------------------------------------------------------------
  // Properties

  lemma {:induction false} NoFiniteValues(series: seq<SeriesPoint>)
    requires forall i :: 0 <= i < |series| ==> !IsFinite(series[i].value)
    ensures FiniteValues(series) == []
  {
    if series != [] {
      NoFiniteValues(series[1..]);
    }
  }

  /** A series without a finite value (the empty series included) scores 0. */
  lemma NoFiniteValueScoresZero(series: seq<SeriesPoint>)
    requires forall i :: 0 <= i < |series| ==> !IsFinite(series[i].value)
    ensures ComputeAnomaly(series) == 0
  {
    NoFiniteValues(series);
  }

  /** Scores 0 and 100 are reached exactly at z = 0 and from z = 5 on. */
  lemma ScaleScoreEnds(z: real)
    requires z >= 0.0
    ensures ScaleScore(z) == 0 <==> z < 0.025
    ensures ScaleScore(z) == 100 <==> z >= 4.975
  {
  }

  /** The sorted copy of a sequence whose elements all equal c is that sequence. */
  lemma SortConstant(values: seq<real>, c: real)
    requires forall i :: 0 <= i < |values| ==> values[i] == c
    ensures forall k :: 0 <= k < |Sort(values)| ==> Sort(values)[k] == c
  {
    var t := Sort(values);
    forall k | 0 <= k < |t| ensures t[k] == c {
      assert t[k] in multiset(values);
    }
  }

  lemma MedianConstant(values: seq<real>, c: real)
    requires |values| > 0
    requires forall i :: 0 <= i < |values| ==> values[i] == c
    ensures Median(values) == c
  {
    SortConstant(values, c);
  }

  /** A series whose finite values are all the same scores 0: the deviation of
      the last value and the MAD are both 0. */
  lemma ConstantScoresZero(series: seq<SeriesPoint>, c: real)
    requires |FiniteValues(series)| > 0
    requires forall i :: 0 <= i < |FiniteValues(series)| ==> FiniteValues(series)[i] == c
    ensures ComputeAnomaly(series) == 0
  {
    ZScoreConstant(FiniteValues(series), c);
    ScaleScoreEnds(0.0);
  }

  lemma ZScoreConstant(values: seq<real>, c: real)
    requires |values| > 0
    requires forall i :: 0 <= i < |values| ==> values[i] == c
    ensures ZScore(values) == 0.0
  {
    MedianConstant(values, c);
    var d := AbsDeviations(values, c);
    MedianConstant(d, 0.0);
    assert Mad(values) == 0.0;
    assert ZScore(values) == ZFrom(c, c, 0.0);
  }

  /** Appending readings that are NaN or infinite does not change the score: the
      scored point is the last FINITE value. */
  lemma TrailingNonFiniteIgnored(series: seq<SeriesPoint>, tail: seq<SeriesPoint>)
    requires |series| > 0
    requires forall i :: 0 <= i < |tail| ==> !IsFinite(tail[i].value)
    ensures ComputeAnomaly(series + tail) == ComputeAnomaly(series)
  {
    FiniteValuesConcat(series, tail);
    NoFiniteValues(tail);
    assert FiniteValues(series + tail) == FiniteValues(series);
  }

  /** The median depends only on the multiset of values. */
  lemma MedianPermutation(a: seq<real>, b: seq<real>)
    requires |a| > 0 && multiset(a) == multiset(b)
    ensures |b| > 0 && Median(a) == Median(b)
  {
    assert |a| == |multiset(a)| == |b|;
    SortedUnique(Sort(a), Sort(b));
  }

  lemma AbsDeviationsConcat(u: seq<real>, v: seq<real>, m: real)
    ensures AbsDeviations(u + v, m) == AbsDeviations(u, m) + AbsDeviations(v, m)
  {
  }

  /** Deviations from a common centre of two permutations are permutations. */
  lemma {:induction false} AbsDeviationsPermutation(a: seq<real>, b: seq<real>, m: real)
    requires multiset(a) == multiset(b)
    ensures multiset(AbsDeviations(a, m)) == multiset(AbsDeviations(b, m))
    decreases |a|
  {
    assert |a| == |multiset(a)| == |b|;
    if a != [] {
      var x := a[0];
      assert x in multiset(b);
      var k :| 0 <= k < |b| && b[k] == x;
      var u, v := b[..k], b[k + 1..];
      assert b == u + [x] + v;
      assert a == [x] + a[1..];
      assert multiset(a[1..]) == multiset(a) - multiset{x};
      assert multiset(u + v) == multiset(b) - multiset{x};
      AbsDeviationsPermutation(a[1..], u + v, m);
      AbsDeviationsConcat([x], a[1..], m);
      AbsDeviationsConcat(u, [x], m);
      AbsDeviationsConcat(u + [x], v, m);
      AbsDeviationsConcat(u, v, m);
    }
  }

  lemma MadPermutation(va: seq<real>, vb: seq<real>)
    requires |va| > 0 && multiset(va) == multiset(vb)
    ensures |vb| > 0 && Mad(va) == Mad(vb)
  {
    MedianPermutation(va, vb);
    var m := Median(va);
    AbsDeviationsPermutation(va, vb, m);
    MedianPermutation(AbsDeviations(va, m), AbsDeviations(vb, m));
  }

  /** The z-score depends only on the multiset of values and on the last one. */
  lemma ZScorePermutation(va: seq<real>, vb: seq<real>)
    requires |va| > 0 && multiset(va) == multiset(vb)
    requires |vb| > 0 && va[|va| - 1] == vb[|vb| - 1]
    ensures ZScore(va) == ZScore(vb)
  {
    MedianPermutation(va, vb);
    MadPermutation(va, vb);
    MadNonNegative(va);
    assert ZScore(va) == ZFrom(va[|va| - 1], Median(va), Mad(va));
    assert ZScore(vb) == ZFrom(va[|va| - 1], Median(va), Mad(va));
  }

  /** Reordering the finite values that precede the last one leaves the score
      unchanged: median and MAD are taken over sorted copies. */
  lemma PermutationInvariant(a: seq<SeriesPoint>, b: seq<SeriesPoint>, p: seq<real>, q: seq<real>, x: real)
    requires FiniteValues(a) == p + [x] && FiniteValues(b) == q + [x]
    requires multiset(p) == multiset(q)
    ensures ComputeAnomaly(a) == ComputeAnomaly(b)
  {
    var va := FiniteValues(a);
    var vb := FiniteValues(b);
    assert multiset(va) == multiset(p) + multiset{x};
    assert multiset(vb) == multiset(q) + multiset{x};
    ZScorePermutation(va, vb);
  }

  /** n copies of c. */
  function Repeat(c: real, n: nat): (r: seq<real>)
    ensures |r| == n && forall i :: 0 <= i < n ==> r[i] == c
  {
    seq(n, i => c)
  }

  /** A sorted sequence of at least three values whose inner values all equal c
      has median c. */
  lemma MedianOfInner(s: seq<real>, c: real)
    requires |s| >= 3
    requires forall k :: 1 <= k < |s| - 1 ==> s[k] == c
    ensures MedianOfSorted(s) == c
  {
    var mid := |s| / 2;
    assert 1 <= mid < |s| - 1 || (|s| == 3 && mid == 1);
    if |s| % 2 == 0 {
      assert 1 <= mid - 1;
    }
  }

  /** The ascending arrangement of a flat run followed by one more value. */
  lemma FlatThenOneSorted(c: real, n: nat, x: real)
    requires n >= 2
    ensures var values := Repeat(c, n) + [x];
      Sort(values) == (if c <= x then values else [x] + Repeat(c, n))
  {
    var values := Repeat(c, n) + [x];
    var sorted := if c <= x then values else [x] + Repeat(c, n);
    assert Sorted(sorted);
    assert multiset(sorted) == multiset(values);
    SortedUnique(Sort(values), sorted);
  }

  /** A flat run of at least two equal values followed by one other value has
      the flat value as its median. */
  lemma MedianFlatThenOne(c: real, n: nat, x: real)
    requires n >= 2
    ensures Median(Repeat(c, n) + [x]) == c
  {
    var values := Repeat(c, n) + [x];
    FlatThenOneSorted(c, n, x);
    var sorted := Sort(values);
    assert forall k :: 1 <= k < |sorted| - 1 ==> sorted[k] == c;
    MedianOfInner(sorted, c);
  }

  /** The deviations of a flat run followed by one value, from the flat value. */
  lemma FlatThenOneDeviations(c: real, n: nat, x: real)
    ensures AbsDeviations(Repeat(c, n) + [x], c) == Repeat(0.0, n) + [Abs(x - c)]
  {
    var d := AbsDeviations(Repeat(c, n) + [x], c);
    var e := Repeat(0.0, n) + [Abs(x - c)];
    assert |d| == |e|;
    forall k | 0 <= k < |d| ensures d[k] == e[k] {
      if k < n {
        assert (Repeat(c, n) + [x])[k] == c;
      }
    }
  }

  /** After a flat baseline the z-score is the distance of the last value from
      the baseline divided by eps (the MAD is 0). */
  lemma FlatThenOneZScore(c: real, n: nat, x: real)
    requires n >= 2
    ensures ZScore(Repeat(c, n) + [x]) == Abs(x - c) / Eps
  {
    var values := Repeat(c, n) + [x];
    MedianFlatThenOne(c, n, x);
    FlatThenOneDeviations(c, n, x);
    MedianFlatThenOne(0.0, n, Abs(x - c));
    assert Mad(values) == 0.0;
    assert ZScore(values) == ZFrom(x, c, 0.0);
  }

  /** After a flat baseline of at least two points, a last value that differs
      from the baseline by 5e-6 or more (z = |x - c| / eps >= 5) scores 100. */
  lemma OutlierSaturates(series: seq<SeriesPoint>, c: real, n: nat, x: real)
    requires n >= 2 && FiniteValues(series) == Repeat(c, n) + [x]
    requires Abs(x - c) >= ZCap * Eps
    ensures ComputeAnomaly(series) == 100
  {
    FlatThenOneZScore(c, n, x);
    var z := Abs(x - c) / Eps;
    assert z >= ZCap;
    ScaleScoreEnds(z);
  }
}
