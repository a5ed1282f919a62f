/**
 * The descriptive statistics of stat/mathfuncs.go: Mean, Variance,
 * Covariance, the filter Which, Median and the empirical distribution
 * function ECDF. The special functions of that file (Beta, IncBeta, the
 * gamma family, StDev, Skewness, Kurtosis) are not modelled.
 */
module StatFuncs {
  import opened RealSeqs
  import opened Sorting

  // ---------------------------------------------------------------------------
  // Mean, Variance, Covariance

  /** The arithmetic mean of a non-empty vector. */
  function MeanOf(arr: seq<real>): real
    requires |arr| >= 1
  {
    Sum(arr) / |arr| as real
  }

  /** Mean: a one-element vector is returned as is; otherwise the sum divided
      by the length. An empty vector would divide zero by zero. */
  method Mean(arr: seq<real>) returns (m: real)
    requires |arr| >= 1
    ensures m == MeanOf(arr)
  {
    var sum := 0.0;
    if |arr| == 1 {
      assert arr[..0] == [];
      assert Sum(arr) == arr[0];
      return arr[0];
    }
    for i := 0 to |arr|
      invariant sum == Sum(arr[..i])
    {
      assert arr[..i + 1][..i] == arr[..i];
      sum := sum + arr[i];
    }
    assert arr[..|arr|] == arr;
    m := sum / |arr| as real;
  }

  /** The mean lies between any lower and upper bound of the elements. */
  lemma MeanBounds(arr: seq<real>, lo: real, hi: real)
    requires |arr| >= 1
    requires forall i :: 0 <= i < |arr| ==> lo <= arr[i] <= hi
    ensures lo <= MeanOf(arr) <= hi
  {
    SumBounds(arr, lo, hi);
    var n := |arr| as real;
    assert n * lo <= Sum(arr) <= n * hi;
    DivideBounds(Sum(arr), n, lo, hi);
  }

  lemma DivideBounds(s: real, n: real, lo: real, hi: real)
    requires n > 0.0 && n * lo <= s <= n * hi
    ensures lo <= s / n <= hi
  {
    assert s / n * n == s;
  }

  /** The mean of n copies of v is v. */
  lemma MeanConst(v: real, n: nat)
    requires n >= 1
    ensures MeanOf(Const(v, n)) == v
  {
    SumConst(v, n);
  }

  /** The products (xs[i] - mx) (ys[i] - my) of deviations from mx and my. */
  function CrossDevs(xs: seq<real>, ys: seq<real>, mx: real, my: real): (r: seq<real>)
    requires |ys| == |xs|
    ensures |r| == |xs|
  {
    seq(|xs|, i requires 0 <= i < |xs| => (xs[i] - mx) * (ys[i] - my))
  }

  /** The sample variance: 0 for at most one element, otherwise the sum of
      squared deviations from the mean divided by n - 1. */
  function VarianceOf(arr: seq<real>): real
  {
    if |arr| <= 1 then 0.0
    else Sum(CrossDevs(arr, arr, MeanOf(arr), MeanOf(arr))) / (|arr| - 1) as real
  }

  /** Variance. */
  method Variance(arr: seq<real>) returns (v: real)
    ensures v == VarianceOf(arr)
  {
    if |arr| <= 1 {
      return 0.0;
    }
    var xbar := Mean(arr);
    ghost var sq := CrossDevs(arr, arr, xbar, xbar);
    var s := 0.0;
    for i := 0 to |arr|
      invariant s == Sum(sq[..i])
    {
      assert sq[..i + 1][..i] == sq[..i];
      var xsqr := arr[i] - xbar;
      s := s + xsqr * xsqr;
    }
    assert sq[..|arr|] == sq;
    v := s / (|arr| - 1) as real;
  }

  /** A sum of squares divided by a positive count: the variance is never negative. */
  lemma VarianceNonNegative(arr: seq<real>)
    ensures VarianceOf(arr) >= 0.0
  {
    if |arr| > 1 {
      var sq := CrossDevs(arr, arr, MeanOf(arr), MeanOf(arr));
      assert forall i :: 0 <= i < |sq| ==> sq[i] >= 0.0 by {
        forall i | 0 <= i < |sq|
          ensures sq[i] >= 0.0
        {
          Square(arr[i] - MeanOf(arr));
        }
      }
      SumNonNegZero(sq);
    }
  }

  lemma Square(d: real)
    ensures d * d >= 0.0
  {
  }

  /** A constant vector has variance 0. */
  lemma VarianceConst(v: real, n: nat)
    ensures VarianceOf(Const(v, n)) == 0.0
  {
    if n > 1 {
      var c := Const(v, n);
      MeanConst(v, n);
      assert forall i :: 0 <= i < n ==> CrossDevs(c, c, v, v)[i] == 0.0;
      assert CrossDevs(c, c, v, v) == Const(0.0, n);
      SumConst(0.0, n);
    }
  }

  /** The population covariance: 0 when the lengths differ, otherwise the mean
      of the products of deviations from the two means. Equal lengths of 0
      divide zero by zero. */
  function CovarianceOf(xs: seq<real>, ys: seq<real>): real
    requires |xs| != |ys| || |xs| >= 1
  {
    if |xs| != |ys| then 0.0 else MeanOf(CrossDevs(xs, ys, MeanOf(xs), MeanOf(ys)))
  }

  /** Covariance. */
  method Covariance(xs: seq<real>, ys: seq<real>) returns (c: real)
    requires |xs| != |ys| || |xs| >= 1
    ensures c == CovarianceOf(xs, ys)
  {
    if |xs| != |ys| {
      return 0.0;
    }
    var n := |xs|;
    var difs := new real[n];
    var xbar := Mean(xs);
    var ybar := Mean(ys);
    for i := 0 to n
      invariant forall j :: 0 <= j < i ==> difs[j] == CrossDevs(xs, ys, xbar, ybar)[j]
    {
      difs[i] := (xs[i] - xbar) * (ys[i] - ybar);
    }
    assert difs[..] == CrossDevs(xs, ys, xbar, ybar);
    c := Mean(difs[..]);
  }

  /** The covariance of a vector with itself is its variance rescaled from
      the n - 1 to the n denominator. */
  lemma CovarianceSelf(xs: seq<real>)
    requires |xs| >= 2
    ensures |xs| as real * CovarianceOf(xs, xs) == (|xs| - 1) as real * VarianceOf(xs)
  {
    var s := Sum(CrossDevs(xs, xs, MeanOf(xs), MeanOf(xs)));
    var n := |xs| as real;
    assert n * (s / n) == s;
    assert (n - 1.0) * (s / (n - 1.0)) == s;
  }

  /** The covariance does not depend on the order of its arguments. */
  lemma CovarianceSymmetric(xs: seq<real>, ys: seq<real>)
    requires |xs| != |ys| || |xs| >= 1
    ensures CovarianceOf(xs, ys) == CovarianceOf(ys, xs)
  {
    if |xs| == |ys| {
      var mx, my := MeanOf(xs), MeanOf(ys);
      assert CrossDevs(xs, ys, mx, my) == CrossDevs(ys, xs, my, mx) by {
        forall i | 0 <= i < |xs|
          ensures CrossDevs(xs, ys, mx, my)[i] == CrossDevs(ys, xs, my, mx)[i]
        {
          Commute(xs[i] - mx, ys[i] - my);
        }
      }
    }
  }

  lemma Commute(a: real, b: real)
    ensures a * b == b * a
  {
  }

  // ---------------------------------------------------------------------------
  // Which

  /** A predicate on reals. */
  type Condition = real -> bool

  /** The elements of arr satisfying cond, in their order in arr. */
  function Filter(arr: seq<real>, cond: Condition): (r: seq<real>)
    ensures |r| <= |arr|
    decreases |arr|
  {
    if arr == [] then []
    else Filter(arr[..|arr| - 1], cond) + (if cond(arr[|arr| - 1]) then [arr[|arr| - 1]] else [])
  }

  /** Which: appends each element that satisfies cond. */
  method Which(arr: seq<real>, cond: Condition) returns (out: seq<real>)
    ensures out == Filter(arr, cond)
  {
    out := [];
    for i := 0 to |arr|
      invariant out == Filter(arr[..i], cond)
    {
      assert arr[..i + 1][..i] == arr[..i];
      if cond(arr[i]) {
        out := out + [arr[i]];
      }
    }
    assert arr[..|arr|] == arr;
  }

  /** s can be obtained from t by deleting elements. */
  ghost predicate SubsequenceOf(s: seq<real>, t: seq<real>)
    decreases |t|
  {
    if s == [] then true
    else if t == [] then false
    else (s[|s| - 1] == t[|t| - 1] && SubsequenceOf(s[..|s| - 1], t[..|t| - 1])) || SubsequenceOf(s, t[..|t| - 1])
  }

  /** Which keeps exactly the elements satisfying the condition ... */
  lemma {:induction false} FilterMembers(arr: seq<real>, cond: Condition, x: real)
    ensures x in Filter(arr, cond) <==> x in arr && cond(x)
    decreases |arr|
  {
    if arr != [] {
      var init := arr[..|arr| - 1];
      FilterMembers(init, cond, x);
      assert arr == init + [arr[|arr| - 1]];
    }
  }

  /** ... in their original order. */
  lemma {:induction false} FilterIsSubsequence(arr: seq<real>, cond: Condition)
    ensures SubsequenceOf(Filter(arr, cond), arr)
    decreases |arr|
  {
    if arr != [] {
      var init := arr[..|arr| - 1];
      FilterIsSubsequence(init, cond);
      var r := Filter(arr, cond);
      if cond(arr[|arr| - 1]) {
        assert r[..|r| - 1] == Filter(init, cond);
      } else {
        assert r == Filter(init, cond);
        SubsequenceDropLast(r, arr);
      }
    }
  }

  /** A subsequence of the prefix of t without its last element is a subsequence of t. */
  lemma SubsequenceDropLast(s: seq<real>, t: seq<real>)
    requires t != [] && SubsequenceOf(s, t[..|t| - 1])
    ensures SubsequenceOf(s, t)
  {
  }

  /** A weaker condition keeps at least as many elements. */
  lemma {:induction false} FilterCountMonotone(arr: seq<real>, c1: Condition, c2: Condition)
    requires forall i :: 0 <= i < |arr| && c1(arr[i]) ==> c2(arr[i])
    ensures |Filter(arr, c1)| <= |Filter(arr, c2)|
    decreases |arr|
  {
    if arr != [] {
      FilterCountMonotone(arr[..|arr| - 1], c1, c2);
    }
  }

  /** A condition that every element satisfies keeps them all. */
  lemma {:induction false} FilterKeepsAll(arr: seq<real>, cond: Condition)
    requires forall i :: 0 <= i < |arr| ==> cond(arr[i])
    ensures Filter(arr, cond) == arr
    decreases |arr|
  {
    if arr != [] {
      FilterKeepsAll(arr[..|arr| - 1], cond);
    }
  }

  /** A condition that no element satisfies keeps none. */
  lemma {:induction false} FilterKeepsNone(arr: seq<real>, cond: Condition)
    requires forall i :: 0 <= i < |arr| ==> !cond(arr[i])
    ensures Filter(arr, cond) == []
    decreases |arr|
  {
    if arr != [] {
      FilterKeepsNone(arr[..|arr| - 1], cond);
    }
  }

  // ---------------------------------------------------------------------------
  // ECDF

  /** The condition x < n. */
  function LessThan(n: real): Condition
  {
    x => x < n
  }

  /** The positions of arr whose element satisfies cond. */
  ghost function PositionsWhere(arr: seq<real>, cond: Condition): set<int>
  {
    set i | 0 <= i < |arr| && cond(arr[i])
  }

  /** Filter keeps one element per position that satisfies cond. */
  lemma {:induction false} FilterCountsPositions(arr: seq<real>, cond: Condition)
    ensures |Filter(arr, cond)| == |PositionsWhere(arr, cond)|
    decreases |arr|
  {
    if arr != [] {
      var n := |arr|;
      var init := arr[..n - 1];
      FilterCountsPositions(init, cond);
      var last: set<int> := if cond(arr[n - 1]) then {n - 1} else {};
      assert PositionsWhere(arr, cond) == PositionsWhere(init, cond) + last by {
        forall i | 0 <= i < n - 1 ensures init[i] == arr[i] { }
      }
      assert PositionsWhere(init, cond) !! last;
    }
  }

  /** ECDF(arr)(x): the share of elements strictly below x, counted with Which.
      An empty arr divides zero by zero. */
  function ECDF(arr: seq<real>): (r: real -> real)
    requires |arr| >= 1
    ensures forall x :: r(x) == |set i | 0 <= i < |arr| && arr[i] < x| as real / |arr| as real
  {
    assert forall x :: |Filter(arr, LessThan(x))| == |set i | 0 <= i < |arr| && arr[i] < x| by {
      forall x ensures |Filter(arr, LessThan(x))| == |set i | 0 <= i < |arr| && arr[i] < x| {
        FilterCountsPositions(arr, LessThan(x));
        assert PositionsWhere(arr, LessThan(x)) == set i | 0 <= i < |arr| && arr[i] < x;
      }
    }
    x => |Filter(arr, LessThan(x))| as real / |arr| as real
  }

  /** The ECDF lies in [0, 1]. */
  lemma ECDFBounds(arr: seq<real>, x: real)
    requires |arr| >= 1
    ensures 0.0 <= ECDF(arr)(x) <= 1.0
  {
    var k := |Filter(arr, LessThan(x))| as real;
    var n := |arr| as real;
    DivideBounds(k, n, 0.0, 1.0);
  }

  /** The ECDF never decreases. */
  lemma ECDFMonotone(arr: seq<real>, x: real, y: real)
    requires |arr| >= 1 && x <= y
    ensures ECDF(arr)(x) <= ECDF(arr)(y)
  {
    FilterCountMonotone(arr, LessThan(x), LessThan(y));
    var a, b := |Filter(arr, LessThan(x))| as real, |Filter(arr, LessThan(y))| as real;
    DivideMonotone(a, b, |arr| as real);
  }

  lemma DivideSelf(n: real)
    requires n > 0.0
    ensures n / n == 1.0
  {
  }

  lemma DivideMonotone(a: real, b: real, n: real)
    requires a <= b && n > 0.0
    ensures a / n <= b / n
  {
    assert a / n * n == a && b / n * n == b;
  }

  /** At or below the minimum the ECDF is 0. */
  lemma ECDFBelowMin(arr: seq<real>, x: real)
    requires |arr| >= 1 && forall i :: 0 <= i < |arr| ==> x <= arr[i]
    ensures ECDF(arr)(x) == 0.0
  {
    FilterKeepsNone(arr, LessThan(x));
  }

  /** Above the maximum the ECDF is 1. */
  lemma ECDFAboveMax(arr: seq<real>, x: real)
    requires |arr| >= 1 && forall i :: 0 <= i < |arr| ==> arr[i] < x
    ensures ECDF(arr)(x) == 1.0
  {
    var below := LessThan(x);
    assert forall i :: 0 <= i < |arr| ==> below(arr[i]);
    FilterKeepsAll(arr, below);
    var n := |arr| as real;
    assert |Filter(arr, below)| as real == n;
    DivideSelf(n);
    assert ECDF(arr)(x) == |Filter(arr, below)| as real / n;
  }

  // ---------------------------------------------------------------------------
  // Median

  /** The element Median reads from its working copy t: (t[n/2] + t[n/2+1]) / 2
      for even n and t[(n+1)/2] for odd n, in range only for n >= 3. */
  function MedianPick(t: seq<real>): real
    requires |t| >= 3
  {
    var n := |t|;
    if n % 2 == 0 then (t[n / 2] + t[n / 2 + 1]) / 2.0 else t[(n + 1) / 2]
  }

  /** Median as written. Sorted input is read in place. Unsorted input gets a
      zero working slice, and the reversed copy(arr, thisarr) overwrites the
      caller's data with those zeros, so the result is 0. */
  method Median(arr: array<real>) returns (m: real)
    requires arr.Length >= 3
    modifies arr
    ensures Sorted(old(arr[..])) ==> arr[..] == old(arr[..]) && m == MedianPick(arr[..])
    ensures !Sorted(old(arr[..])) ==> arr[..] == Const(0.0, arr.Length) && m == 0.0
  {
    var n := arr.Length;
    var thisarr: array<real>;
    var sorted := AreSorted(arr);
    if !sorted {
      thisarr := new real[n](_ => 0.0);
      assert thisarr[..] == Const(0.0, n);
      Copy(arr, thisarr[..]);
      SortFloats(thisarr);
      ZerosStayZeros(thisarr[..], n);
    } else {
      thisarr := arr;
    }
    if n % 2 == 0 {
      var j := n / 2;
      m := (thisarr[j] + thisarr[j + 1]) / 2.0;
    } else {
      m := thisarr[(n + 1) / 2];
    }
  }

  /** On sorted input Median returns the wrong element: for [1, 2, 3] it gives
      3 rather than 2, and for [1, 2, 3, 4] it gives 3.5 rather than 2.5. */
  lemma MedianPickOffByOne()
    ensures MedianPick([1.0, 2.0, 3.0]) == 3.0
    ensures MedianPick([1.0, 2.0, 3.0, 4.0]) == 3.5
  {
  }

  /** The middle of a sorted vector: t[n/2] for odd n, and the mean of
      t[n/2 - 1] and t[n/2] for even n. */
  function Middle(t: seq<real>): real
    requires |t| >= 1
  {
    var n := |t|;
    if n % 2 == 0 then (t[n / 2 - 1] + t[n / 2]) / 2.0 else t[n / 2]
  }

  /** The middle of a sorted vector splits it in halves: the first half lies at
      or below it and the second half at or above it. */
  lemma MiddleSplits(t: seq<real>)
    requires |t| >= 1 && Sorted(t)
    ensures forall i :: 0 <= i < (|t| + 1) / 2 ==> t[i] <= Middle(t)
    ensures forall i :: |t| / 2 <= i < |t| ==> Middle(t) <= t[i]
  {
  }

  /** Median as evidently intended: the data are copied into the working slice,
      which is sorted, and its middle is returned together with the sorted
      working copy; the caller's data are kept. */
  method MedianCorrected(arr: array<real>) returns (m: real, t: seq<real>)
    requires arr.Length >= 1
    ensures Sorted(t) && multiset(t) == multiset(arr[..]) && m == Middle(t)
  {
    var n := arr.Length;
    var thisarr: array<real>;
    var inOrder := AreSorted(arr);
    if !inOrder {
      thisarr := new real[n];
      Copy(thisarr, arr[..]);
      SortFloats(thisarr);
    } else {
      thisarr := arr;
    }
    t := thisarr[..];
    if n % 2 == 0 {
      m := (thisarr[n / 2 - 1] + thisarr[n / 2]) / 2.0;
    } else {
      m := thisarr[n / 2];
    }
  }
}
