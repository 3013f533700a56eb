/** Small collection helpers shared by the dashboard model: an Option type,
    the order-preserving filter that `Array.prototype.filter` performs, and
    the sum and mean that the `reduce((acc, x) => acc + x, 0) / length`
    idiom computes. */
module Common {

  datatype Option<+T> = None | Some(value: T) {
    /** `x ?? d` for a value that is either present or undefined/null. */
    function GetOr(default: T): T {
      if Some? then value else default
    }
  }

  /** `s.filter(p)`: the elements of s that satisfy p, in their original order. */
  function Filter<T>(s: seq<T>, p: T -> bool): (r: seq<T>)
    ensures |r| <= |s|
    ensures multiset(r) <= multiset(s)
    ensures forall i :: 0 <= i < |r| ==> p(r[i])
  {
    if s == [] then []
    else
      var rest := Filter(s[1..], p);
      assert s == [s[0]] + s[1..];
      if p(s[0]) then [s[0]] + rest else rest
  }

  /** Every element of s that satisfies p survives the filter. */
  lemma {:induction false} FilterComplete<T>(s: seq<T>, p: T -> bool, i: nat)
    requires i < |s| && p(s[i])
    ensures s[i] in Filter(s, p)
  {
    if i > 0 {
      FilterComplete(s[1..], p, i - 1);
    }
  }

  /** r can be obtained from s by deleting elements (order is kept). */
  ghost predicate IsSubsequence<T>(r: seq<T>, s: seq<T>)
    decreases |s|
  {
    r == [] ||
    (s != [] &&
      ((r[0] == s[0] && IsSubsequence(r[1..], s[1..])) || IsSubsequence(r, s[1..])))
  }

  lemma {:induction false} FilterIsSubsequence<T>(s: seq<T>, p: T -> bool)
    ensures IsSubsequence(Filter(s, p), s)
  {
    if s != [] {
      FilterIsSubsequence(s[1..], p);
      var rest := Filter(s[1..], p);
      if p(s[0]) {
        assert Filter(s, p) == [s[0]] + rest;
        assert Filter(s, p)[1..] == rest;
      }
    }
  }

  /** Filtering with a predicate that every element already satisfies changes nothing. */
  lemma {:induction false} FilterKeepsAll<T>(s: seq<T>, p: T -> bool)
    requires forall i :: 0 <= i < |s| ==> p(s[i])
    ensures Filter(s, p) == s
  {
    if s != [] {
      FilterKeepsAll(s[1..], p);
      assert s == [s[0]] + s[1..];
    }
  }

  /** The left fold `xs.reduce((acc, x) => acc + x, 0)`. */
  function Sum(xs: seq<real>): real
  {
    if xs == [] then 0.0 else Sum(xs[..|xs| - 1]) + xs[|xs| - 1]
  }

  /** The arithmetic mean of a non-empty sequence. */
  function Mean(xs: seq<real>): real
    requires |xs| > 0
  {
    Sum(xs) / (|xs| as real)
  }

  lemma {:induction false} SumWithin(xs: seq<real>, lo: real, hi: real)
    requires forall i :: 0 <= i < |xs| ==> lo <= xs[i] <= hi
    ensures (|xs| as real) * lo <= Sum(xs) <= (|xs| as real) * hi
  {
    if xs != [] {
      SumWithin(xs[..|xs| - 1], lo, hi);
    }
  }

  lemma {:induction false} SumAbove(xs: seq<real>, m: real)
    requires |xs| > 0
    requires forall i :: 0 <= i < |xs| ==> m < xs[i]
    ensures (|xs| as real) * m < Sum(xs)
  {
    if |xs| > 1 {
      SumAbove(xs[..|xs| - 1], m);
    }
  }

  lemma {:induction false} SumBelow(xs: seq<real>, m: real)
    requires |xs| > 0
    requires forall i :: 0 <= i < |xs| ==> xs[i] < m
    ensures Sum(xs) < (|xs| as real) * m
  {
    if |xs| > 1 {
      SumBelow(xs[..|xs| - 1], m);
    }
  }

  /** The mean of values that all lie in [lo, hi] lies in [lo, hi]. */
  lemma MeanWithin(xs: seq<real>, lo: real, hi: real)
    requires |xs| > 0
    requires forall i :: 0 <= i < |xs| ==> lo <= xs[i] <= hi
    ensures lo <= Mean(xs) <= hi
  {
    SumWithin(xs, lo, hi);
    var n := |xs| as real;
    assert Mean(xs) * n == Sum(xs);
  }

  /** The mean is bounded below by some element and above by some element,
      that is, it lies between the minimum and the maximum. */
  lemma MeanBetweenElements(xs: seq<real>)
    requires |xs| > 0
    ensures exists i :: 0 <= i < |xs| && xs[i] <= Mean(xs)
    ensures exists j :: 0 <= j < |xs| && Mean(xs) <= xs[j]
  {
    var n := |xs| as real;
    var m := Mean(xs);
    assert m * n == Sum(xs);
    if forall i :: 0 <= i < |xs| ==> m < xs[i] {
      SumAbove(xs, m);
      assert false;
    }
    if forall j :: 0 <= j < |xs| ==> xs[j] < m {
      SumBelow(xs, m);
      assert false;
    }
  }
}
