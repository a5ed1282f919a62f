/**
 * The two-sample tests of stat/statops.go: the early returns of WelchTtest
 * and KSTest2, the data WelchTtest hands to its distribution, and the
 * Kolmogorov-Smirnov distance D that KSTest2 computes over its pooled,
 * sorted points. Square roots, powers and the distribution functions
 * (StudentTDist, QKS) are parameters.
 */
module StatOps {
  import opened RealSeqs
  import opened Sorting
  import opened StatFuncs

  // ---------------------------------------------------------------------------
  // WelchTtest

  /** What the Welch statistic is computed from: the two means and the two
      squared standard errors Variance/n, with the sample sizes. */
  datatype WelchTerms = WelchTerms(meanA: real, meanB: real, seA: real, seB: real, nA: nat, nB: nat)

  /** The rest of WelchTtest: square root, degrees of freedom and the Student
      t distribution, from the terms to (p, t). */
  type WelchRest = WelchTerms -> (real, real)

  /** The terms of samples a and b; the squared standard errors are never
      negative, so their sum has a real square root. */
  function TermsOf(a: seq<real>, b: seq<real>): (w: WelchTerms)
    requires |a| >= 2 && |b| >= 2
    ensures w.seA >= 0.0 && w.seB >= 0.0 && w.seA + w.seB >= 0.0
    ensures w.nA == |a| && w.nB == |b|
  {
    VarianceNonNegative(a);
    VarianceNonNegative(b);
    var na, nb := |a| as real, |b| as real;
    WelchTerms(MeanOf(a), MeanOf(b), VarianceOf(a) / na, VarianceOf(b) / nb, |a|, |b|)
  }

  /** WelchTtest: samples of at most one element give p = 1, t = 0; otherwise
      the means and variances of both samples go to the rest of the test. */
  method WelchTtest(a: seq<real>, b: seq<real>, rest: WelchRest) returns (p: real, t: real)
    ensures |a| <= 1 || |b| <= 1 ==> p == 1.0 && t == 0.0
    ensures |a| >= 2 && |b| >= 2 ==> (p, t) == rest(TermsOf(a, b))
  {
    if |a| <= 1 || |b| <= 1 {
      return 1.0, 0.0;
    }
    var xbarA := Mean(a);
    var xbarB := Mean(b);
    var varA := Variance(a);
    var varB := Variance(b);
    var sA := varA / |a| as real;
    var sB := varB / |b| as real;
    var pt := rest(WelchTerms(xbarA, xbarB, sA, sB, |a|, |b|));
    p, t := pt.0, pt.1;
  }

  // ---------------------------------------------------------------------------
  // KSTest2

  /** The points KSTest2 scans before sorting: the slice is made with length
      |a| + |b| (so it holds that many zeros) and a and b are appended. */
  function Pooled(a: seq<real>, b: seq<real>): (r: seq<real>)
    ensures |r| == 2 * (|a| + |b|)
    ensures forall i :: 0 <= i < |a| + |b| ==> r[i] == 0.0
    ensures r[|a| + |b|..] == a + b
  {
    Const(0.0, |a| + |b|) + a + b
  }

  /** |EA(x) - EB(x)|, the distance between the two ECDFs at x. */
  function Gap(a: seq<real>, b: seq<real>, x: real): real
    requires |a| >= 1 && |b| >= 1
  {
    Abs(ECDF(a)(x) - ECDF(b)(x))
  }

  /** The distance between two ECDFs is at most 1. */
  lemma GapBounds(a: seq<real>, b: seq<real>, x: real)
    requires |a| >= 1 && |b| >= 1
    ensures 0.0 <= Gap(a, b, x) <= 1.0
  {
    ECDFBounds(a, x);
    ECDFBounds(b, x);
  }

  /** d is the largest gap over the points of s, or 0 when that is larger. */
  ghost predicate MaxGapOver(a: seq<real>, b: seq<real>, s: seq<real>, d: real)
    requires |a| >= 1 && |b| >= 1
  {
    && d >= 0.0
    && (forall x :: x in s ==> Gap(a, b, x) <= d)
    && (d == 0.0 || exists x :: x in s && Gap(a, b, x) == d)
  }

  /** The effective sample size |a| |b| / (|a| + |b|) in integer division. */
  function EffectiveSize(na: nat, nb: nat): nat
    requires na + nb > 0
  {
    (na * nb) / (na + nb)
  }

  /** With at least two points in each sample the effective size is at least
      1 and below the smaller sample size. */
  lemma EffectiveSizeBounds(na: nat, nb: nat)
    requires na >= 2 && nb >= 2
    ensures 1 <= EffectiveSize(na, nb) < na && EffectiveSize(na, nb) < nb
  {
    var s := na + nb;
    var q := EffectiveSize(na, nb);
    var r := (na * nb) % s;
    assert na * nb == q * s + r && 0 <= r < s;
    ProductAtLeastSum(na, nb);
    ProductBelow(na, nb, s);
    ProductBelow(nb, na, s);
    QuotientBelow(na * nb, s, na);
    QuotientBelow(na * nb, s, nb);
  }

  lemma ProductAtLeastSum(x: nat, y: nat)
    requires x >= 2 && y >= 2
    ensures x * y >= x + y
  {
    assert x * y == x * (y - 2) + 2 * x;
    assert x * (y - 2) >= 0;
  }

  lemma ProductBelow(x: nat, y: nat, s: nat)
    requires x >= 1 && y >= 1 && s == x + y
    ensures x * y < x * s
  {
    assert x * s == x * y + x * x;
    assert x * x >= 1;
  }

  lemma QuotientBelow(p: nat, s: nat, m: nat)
    requires s > 0 && p < m * s
    ensures p / s < m
  {
    var q, r := p / s, p % s;
    assert p == q * s + r && r >= 0;
  }

  /** KSTest2: samples of at most one element give p = 1, D = 0. Otherwise D
      is the largest distance between the two ECDFs over the pooled points,
      scanned after sorting, and p is QKS applied to D and the effective size. */
  method KSTest2(a: seq<real>, b: seq<real>, qks: (real, nat) -> real) returns (p: real, D: real)
    ensures |a| <= 1 || |b| <= 1 ==> p == 1.0 && D == 0.0
    ensures |a| >= 2 && |b| >= 2 ==> MaxGapOver(a, b, Pooled(a, b), D)
    ensures |a| >= 2 && |b| >= 2 ==> p == qks(D, EffectiveSize(|a|, |b|))
  {
    if |a| <= 1 || |b| <= 1 {
      return 1.0, 0.0;
    }
    var ne := (|a| * |b|) / (|a| + |b|);
    var pts := SortedPoints(a, b);
    D := LargestGap(a, b, pts);
    ScanCoversPooled(a, b, pts[..], Pooled(a, b), D);
    p := qks(D, ne);
  }

  /** The pooled points, sorted in a fresh array. */
  method SortedPoints(a: seq<real>, b: seq<real>) returns (pts: array<real>)
    ensures fresh(pts)
    ensures Sorted(pts[..]) && multiset(pts[..]) == multiset(Pooled(a, b))
  {
    var pooled := Const(0.0, |a| + |b|) + a + b;
    pts := new real[|pooled|];
    Copy(pts, pooled);
    SortFloats(pts);
  }

  /** The scan of KSTest2: D starts at 0 and grows to each larger distance
      between EA and EB at the points in turn. */
  method LargestGap(a: seq<real>, b: seq<real>, pts: array<real>) returns (D: real)
    requires |a| >= 1 && |b| >= 1
    ensures D >= 0.0
    ensures forall j :: 0 <= j < pts.Length ==> Gap(a, b, pts[j]) <= D
    ensures D == 0.0 || exists j :: 0 <= j < pts.Length && Gap(a, b, pts[j]) == D
  {
    var ea := ECDF(a);
    var eb := ECDF(b);
    D := 0.0;
    for i := 0 to pts.Length
      invariant D >= 0.0
      invariant forall j :: 0 <= j < i ==> Gap(a, b, pts[j]) <= D
      invariant D == 0.0 || exists j :: 0 <= j < i && Gap(a, b, pts[j]) == D
    {
      var thisd := Abs(ea(pts[i]) - eb(pts[i]));
      assert thisd == Gap(a, b, pts[i]);
      if thisd > D {
        D := thisd;
      }
    }
  }

  /** A largest gap found over a rearrangement of the pooled points is one
      over the pooled points. */
  lemma ScanCoversPooled(a: seq<real>, b: seq<real>, pts: seq<real>, pooled: seq<real>, d: real)
    requires |a| >= 1 && |b| >= 1 && multiset(pts) == multiset(pooled)
    requires d >= 0.0
    requires forall j :: 0 <= j < |pts| ==> Gap(a, b, pts[j]) <= d
    requires d == 0.0 || exists j :: 0 <= j < |pts| && Gap(a, b, pts[j]) == d
    ensures MaxGapOver(a, b, pooled, d)
  {
    forall x | x in pooled
      ensures Gap(a, b, x) <= d
    {
      assert x in multiset(pooled);
      assert x in multiset(pts);
      var j :| 0 <= j < |pts| && pts[j] == x;
    }
    if d != 0.0 {
      var j :| 0 <= j < |pts| && Gap(a, b, pts[j]) == d;
      assert pts[j] in multiset(pts);
      assert pts[j] in pooled;
    }
  }

  /** D lies in [0, 1]. */
  lemma MaxGapBounds(a: seq<real>, b: seq<real>, s: seq<real>, d: real)
    requires |a| >= 1 && |b| >= 1 && MaxGapOver(a, b, s, d)
    ensures 0.0 <= d <= 1.0
  {
    if d != 0.0 {
      var x :| x in s && Gap(a, b, x) == d;
      GapBounds(a, b, x);
    }
  }

  /** The largest gap over s is determined by a, b and s. */
  lemma MaxGapUnique(a: seq<real>, b: seq<real>, s: seq<real>, d1: real, d2: real)
    requires |a| >= 1 && |b| >= 1
    requires MaxGapOver(a, b, s, d1) && MaxGapOver(a, b, s, d2)
    ensures d1 == d2
  {
    if d1 != 0.0 {
      var x :| x in s && Gap(a, b, x) == d1;
    }
    if d2 != 0.0 {
      var x :| x in s && Gap(a, b, x) == d2;
    }
  }

  // ---------------------------------------------------------------------------
  // The padding zeros

  /** The zeros at the head of the pooled points do not change D: the largest
      gap over the pooled points is the largest gap over the samples alone. */
  lemma PaddingHarmless(a: seq<real>, b: seq<real>, d: real)
    requires |a| >= 1 && |b| >= 1
    ensures MaxGapOver(a, b, Pooled(a, b), d) <==> MaxGapOver(a, b, a + b, d)
  {
    var pooled := Pooled(a, b);
    var n := |a| + |b|;
    assert forall x :: x in pooled ==> x == 0.0 || x in a + b by {
      forall x | x in pooled
        ensures x == 0.0 || x in a + b
      {
        var i :| 0 <= i < |pooled| && pooled[i] == x;
        if i >= n {
          assert x == pooled[n..][i - n];
        }
      }
    }
    assert forall x :: x in a + b ==> x in pooled by {
      forall x | x in a + b
        ensures x in pooled
      {
        var i :| 0 <= i < |a + b| && (a + b)[i] == x;
        assert pooled[n..][i] == x;
      }
    }
    GapAttained(a, b, 0.0);
  }

  /** Every gap is 0 or is the gap at one of the sample points: the ECDFs only
      change value just after a sample point. */
  lemma GapAttained(a: seq<real>, b: seq<real>, x: real)
    requires |a| >= 1 && |b| >= 1
    ensures Gap(a, b, x) == 0.0 || exists y :: y in a + b && Gap(a, b, y) == Gap(a, b, x)
  {
    var c := a + b;
    if exists i :: 0 <= i < |c| && c[i] >= x {
      var p := LeastAtLeast(c, x);
      assert forall i :: 0 <= i < |a| ==> a[i] == c[i];
      assert forall i :: 0 <= i < |b| ==> b[i] == c[|a| + i];
      FilterAgree(a, LessThan(x), LessThan(p));
      FilterAgree(b, LessThan(x), LessThan(p));
      assert Gap(a, b, p) == Gap(a, b, x);
    } else {
      assert forall i :: 0 <= i < |a| ==> a[i] == c[i];
      assert forall i :: 0 <= i < |b| ==> b[i] == c[|a| + i];
      ECDFAboveMax(a, x);
      ECDFAboveMax(b, x);
    }
  }

  /** The least element of c that is at least x. */
  lemma {:induction false} LeastAtLeast(c: seq<real>, x: real) returns (p: real)
    requires exists i :: 0 <= i < |c| && c[i] >= x
    ensures p in c && p >= x
    ensures forall i :: 0 <= i < |c| && c[i] >= x ==> p <= c[i]
    decreases |c|
  {
    var last := c[|c| - 1];
    var init := c[..|c| - 1];
    if exists i :: 0 <= i < |init| && init[i] >= x {
      var q := LeastAtLeast(init, x);
      assert q in c;
      p := if last >= x && last < q then last else q;
      forall i | 0 <= i < |c| && c[i] >= x
        ensures p <= c[i]
      {
        if i < |c| - 1 {
          assert init[i] == c[i];
        }
      }
    } else {
      p := last;
      assert forall i :: 0 <= i < |init| ==> init[i] == c[i];
    }
  }

  /** Two conditions that agree on every element keep the same elements. */
  lemma {:induction false} FilterAgree(arr: seq<real>, f: Condition, g: Condition)
    requires forall i :: 0 <= i < |arr| ==> f(arr[i]) == g(arr[i])
    ensures Filter(arr, f) == Filter(arr, g)
    decreases |arr|
  {
    if arr != [] {
      FilterAgree(arr[..|arr| - 1], f, g);
    }
  }
}
