/**
 * The straight-line fit of stat/linfit.go: evaluation, the residual sum of
 * squares, bootstrap resampling (with the random draws given as input) and
 * Deming regression up to its closed-form slope, which is a parameter here.
 */
module LinFit {
  import opened Wrappers
  import opened RealSeqs
  import opened StatFuncs

  /** A fitted line y = Slope x + Intercept with the data and the error-variance
      ratio lambda it was fitted with. */
  datatype LinearFit = LinearFit(lambda: real, xs: seq<real>, ys: seq<real>, Slope: real, Intercept: real)
  {
    /** Eval: the line at x, the one value whose rise over the intercept, per unit
        of x, is Slope. */
    function Eval(x: real): (r: real)
      ensures x == 0.0 ==> r == Intercept
      ensures x != 0.0 ==> (r - Intercept) / x == Slope
    {
      Slope * x + Intercept
    }
  }

  /** The line meets the y axis at the intercept and rises by Slope per unit of x. */
  lemma EvalIsLine(lf: LinearFit, x: real, y: real)
    ensures lf.Eval(0.0) == lf.Intercept
    ensures lf.Eval(y) - lf.Eval(x) == lf.Slope * (y - x)
  {
    assert lf.Slope * y - lf.Slope * x == lf.Slope * (y - x);
  }

  // ---------------------------------------------------------------------------
  // elements and resample

  /** Every index points into arr. */
  ghost predicate IndexesIn(indexes: seq<int>, n: nat)
  {
    forall i :: 0 <= i < |indexes| ==> 0 <= indexes[i] < n
  }

  /** elements: out[i] = arr[indexes[i]]; an index out of range panics. */
  method Elements(arr: seq<real>, indexes: seq<int>) returns (out: seq<real>)
    requires IndexesIn(indexes, |arr|)
    ensures |out| == |indexes|
    ensures forall i :: 0 <= i < |indexes| ==> out[i] == arr[indexes[i]]
  {
    var buf := new real[|indexes|];
    for i := 0 to |indexes|
      invariant forall j :: 0 <= j < i ==> buf[j] == arr[indexes[j]]
    {
      buf[i] := arr[indexes[i]];
    }
    out := buf[..];
  }

  /** resample: one index list of len(xs) draws, each in [0, len(xs)) as
      rand.Intn(len(xs)) returns them, gathers both xs and ys. The draws are
      the input here; ys must be at least as long as xs for the gather to stay
      in range. */
  method Resample(xs: seq<real>, ys: seq<real>, draws: seq<int>) returns (rx: seq<real>, ry: seq<real>)
    requires |draws| == |xs| && IndexesIn(draws, |xs|) && |ys| >= |xs|
    ensures |rx| == |ry| == |xs|
    ensures forall i :: 0 <= i < |xs| ==> 0 <= draws[i] < |xs| && rx[i] == xs[draws[i]] && ry[i] == ys[draws[i]]
  {
    var nsamp := |xs|;
    var indexes := new int[nsamp];
    for i := 0 to nsamp
      invariant forall j :: 0 <= j < i ==> indexes[j] == draws[j]
    {
      indexes[i] := draws[i];
    }
    assert indexes[..] == draws;
    rx := Elements(xs, indexes[..]);
    ry := Elements(ys, indexes[..]);
  }

  // ---------------------------------------------------------------------------
  // SumSquares

  /** The squared residuals (ys[i] - Eval(xs[i]))^2. */
  function Residuals(lf: LinearFit, xs: seq<real>, ys: seq<real>): (r: seq<real>)
    requires |ys| == |xs|
    ensures |r| == |xs|
  {
    seq(|xs|, i requires 0 <= i < |xs| => (ys[i] - lf.Eval(xs[i])) * (ys[i] - lf.Eval(xs[i])))
  }

  /** SumSquares: NaN (None here) when the lengths differ, otherwise the sum of
      the squared residuals. */
  method SumSquares(lf: LinearFit, xs: seq<real>, ys: seq<real>) returns (r: Option<real>)
    ensures |xs| != |ys| ==> r == None
    ensures |xs| == |ys| ==> r == Some(Sum(Residuals(lf, xs, ys)))
  {
    if |xs| != |ys| {
      return None;
    }
    ghost var res := Residuals(lf, xs, ys);
    var ss := 0.0;
    for i := 0 to |xs|
      invariant ss == Sum(res[..i])
    {
      assert res[..i + 1][..i] == res[..i];
      var lfval := lf.Eval(xs[i]);
      var dif := ys[i] - lfval;
      ss := ss + dif * dif;
    }
    assert res[..|xs|] == res;
    return Some(ss);
  }

  /** The residual sum of squares is never negative, and it is 0 when every
      point lies on the line. */
  lemma SumSquaresZero(lf: LinearFit, xs: seq<real>, ys: seq<real>)
    requires |ys| == |xs|
    ensures Sum(Residuals(lf, xs, ys)) >= 0.0
    ensures (forall i :: 0 <= i < |xs| ==> ys[i] == lf.Eval(xs[i])) ==> Sum(Residuals(lf, xs, ys)) == 0.0
  {
    var res := Residuals(lf, xs, ys);
    forall i | 0 <= i < |xs|
      ensures res[i] >= 0.0
      ensures ys[i] == lf.Eval(xs[i]) ==> res[i] == 0.0
    {
      Square(ys[i] - lf.Eval(xs[i]));
    }
    SumNonNegZero(res);
  }

  // ---------------------------------------------------------------------------
  // DemingReg

  /** The closed-form Deming slope from (sxx, sxy, syy, delta): a square root
      and a division by 2 sxy, not modelled. */
  type SlopeRule = (real, real, real, real) -> real

  /** The fit DemingReg builds: the slope from the sample moments, and the
      intercept ybar - b xbar. */
  function DemingFit(xs: seq<real>, ys: seq<real>, delta: real, slope: SlopeRule): LinearFit
    requires |ys| == |xs| >= 2
  {
    var n := (|xs| - 1) as real;
    var xbar, ybar := MeanOf(xs), MeanOf(ys);
    var sxx := Sum(CrossDevs(xs, xs, xbar, xbar)) / n;
    var sxy := Sum(CrossDevs(xs, ys, xbar, ybar)) / n;
    var syy := Sum(CrossDevs(ys, ys, ybar, ybar)) / n;
    var b := slope(sxx, sxy, syy, delta);
    LinearFit(delta, xs, ys, b, ybar - b * xbar)
  }

  /** DemingReg: nil (None) when the lengths differ. Equal lengths below 2
      divide by n - 1 = 0 or take the mean of nothing. */
  method DemingReg(xs: seq<real>, ys: seq<real>, delta: real, slope: SlopeRule) returns (r: Option<LinearFit>)
    requires |xs| != |ys| || |xs| >= 2
    ensures |xs| != |ys| ==> r == None
    ensures |xs| == |ys| ==> r == Some(DemingFit(xs, ys, delta, slope))
  {
    if |xs| != |ys| {
      return None;
    }
    var n := (|xs| - 1) as real;
    var xbar := Mean(xs);
    var ybar := Mean(ys);
    var sumxx, sumxy, sumyy := Moments(xs, ys, xbar, ybar);
    var sxx, sxy, syy := sumxx / n, sumxy / n, sumyy / n;
    var b := slope(sxx, sxy, syy, delta);
    var a := ybar - b * xbar;
    assert LinearFit(delta, xs, ys, b, a) == DemingFit(xs, ys, delta, slope);
    return Some(LinearFit(delta, xs, ys, b, a));
  }

  /** The loop of DemingReg: the sums of the products of deviations from xbar and ybar. */
  method Moments(xs: seq<real>, ys: seq<real>, xbar: real, ybar: real) returns (sxx: real, sxy: real, syy: real)
    requires |ys| == |xs|
    ensures sxx == Sum(CrossDevs(xs, xs, xbar, xbar))
    ensures sxy == Sum(CrossDevs(xs, ys, xbar, ybar))
    ensures syy == Sum(CrossDevs(ys, ys, ybar, ybar))
  {
    sxx, sxy, syy := 0.0, 0.0, 0.0;
    for i := 0 to |xs|
      invariant sxx == CrossPrefix(xs, xs, xbar, xbar, i)
      invariant sxy == CrossPrefix(xs, ys, xbar, ybar, i)
      invariant syy == CrossPrefix(ys, ys, ybar, ybar, i)
    {
      CrossPrefixStep(xs, xs, xbar, xbar, i);
      CrossPrefixStep(xs, ys, xbar, ybar, i);
      CrossPrefixStep(ys, ys, ybar, ybar, i);
      sxx := sxx + (xs[i] - xbar) * (xs[i] - xbar);
      sxy := sxy + (xs[i] - xbar) * (ys[i] - ybar);
      syy := syy + (ys[i] - ybar) * (ys[i] - ybar);
    }
    assert CrossDevs(xs, xs, xbar, xbar)[..|xs|] == CrossDevs(xs, xs, xbar, xbar);
    assert CrossDevs(xs, ys, xbar, ybar)[..|xs|] == CrossDevs(xs, ys, xbar, ybar);
    assert CrossDevs(ys, ys, ybar, ybar)[..|xs|] == CrossDevs(ys, ys, ybar, ybar);
  }

  /** The sum of the first i products of deviations. */
  ghost function CrossPrefix(xs: seq<real>, ys: seq<real>, mx: real, my: real, i: nat): real
    requires |ys| == |xs| && i <= |xs|
  {
    Sum(CrossDevs(xs, ys, mx, my)[..i])
  }

  lemma CrossPrefixStep(xs: seq<real>, ys: seq<real>, mx: real, my: real, i: nat)
    requires |ys| == |xs| && i < |xs|
    ensures CrossPrefix(xs, ys, mx, my, i + 1) == CrossPrefix(xs, ys, mx, my, i) + (xs[i] - mx) * (ys[i] - my)
  {
    var d := CrossDevs(xs, ys, mx, my);
    assert d[..i + 1][..i] == d[..i];
  }

  /** Whatever the slope, the Deming line passes through the centroid (xbar, ybar). */
  lemma DemingThroughCentroid(xs: seq<real>, ys: seq<real>, delta: real, slope: SlopeRule)
    requires |ys| == |xs| >= 2
    ensures DemingFit(xs, ys, delta, slope).Eval(MeanOf(xs)) == MeanOf(ys)
  {
  }

  /** LinFit: Deming regression with equal error variances. */
  method LinFit(xs: seq<real>, ys: seq<real>, slope: SlopeRule) returns (r: Option<LinearFit>)
    requires |xs| != |ys| || |xs| >= 2
    ensures |xs| != |ys| ==> r == None
    ensures |xs| == |ys| ==> r == Some(DemingFit(xs, ys, 1.0, slope))
  {
    r := DemingReg(xs, ys, 1.0, slope);
  }
}
