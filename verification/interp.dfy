/**
 * Natural cubic spline over sampled data (interpLib.go): equally spaced
 * samples, the right-hand side 3*dy, the in-place Thomas solve for the knot
 * tangents, and the Hermite evaluators F, DF and DDF.
 */
module Interp {
  import opened RealSeqs

  // ---------------------------------------------------------------------------
  // Arange and makeConstVec

  /** The spacing of n samples taken from start towards stop (stop excluded). */
  function ArangeStep(start: real, stop: real, n: nat): real
    requires n > 0
  {
    (stop - start) / n as real
  }

  /** The n samples start, start + h, ..., start + (n - 1) * h. */
  function ArangeSeq(start: real, stop: real, n: nat): seq<real>
  {
    if n == 0 then [] else seq(n, i => start + i as real * ArangeStep(start, stop, n))
  }

  method Arange(start: real, stop: real, n: nat) returns (f: array<real>)
    ensures fresh(f)
    ensures f[..] == ArangeSeq(start, stop, n)
  {
    f := new real[n];
    if n == 0 {
      return;
    }
    var h := (stop - start) / n as real;
    var i := 0;
    while i < n
      invariant 0 <= i <= n
      invariant forall j :: 0 <= j < i ==> f[j] == start + j as real * h
    {
      f[i] := start + i as real * h;
      i := i + 1;
    }
    assert h == ArangeStep(start, stop, n);
    forall j | 0 <= j < n
      ensures f[..][j] == ArangeSeq(start, stop, n)[j]
    {
    }
  }

  /** Arange yields exactly n samples; the first is start, the last stop - h,
      and consecutive samples are h apart. */
  lemma ArangeShape(start: real, stop: real, n: nat)
    ensures |ArangeSeq(start, stop, n)| == n
    ensures n == 0 ==> ArangeSeq(start, stop, n) == []
    ensures n > 0 ==> ArangeSeq(start, stop, n)[0] == start
    ensures n > 0 ==> ArangeSeq(start, stop, n)[n - 1] == stop - ArangeStep(start, stop, n)
    ensures n > 0 ==> forall i :: 0 < i < n ==>
      ArangeSeq(start, stop, n)[i] - ArangeSeq(start, stop, n)[i - 1] == ArangeStep(start, stop, n)
  {
    if n > 0 {
      var h := ArangeStep(start, stop, n);
      assert n as real * h == stop - start;
      assert (n - 1) as real * h == n as real * h - h;
    }
  }

  method MakeConstVec(a: real, n: nat) returns (out: array<real>)
    ensures fresh(out)
    ensures out[..] == Const(a, n)
  {
    out := new real[n];
    var i := 0;
    while i < n
      invariant 0 <= i <= n
      invariant forall j :: 0 <= j < i ==> out[j] == a
    {
      out[i] := a;
      i := i + 1;
    }
  }

  // ---------------------------------------------------------------------------
  // The tridiagonal system of the natural spline

  /** Main diagonal: 2 in the first and last rows, 4 elsewhere. */
  function Diag(l: nat, i: nat): real
  {
    if i == 0 || i == l - 1 then 2.0 else 4.0
  }

  /** Row i of A * X, where A has 1 on both off-diagonals and Diag on the main one. */
  function RowValue(X: seq<real>, i: nat): real
    requires i < |X|
  {
    (if i > 0 then X[i - 1] else 0.0) + Diag(|X|, i) * X[i] + (if i + 1 < |X| then X[i + 1] else 0.0)
  }

  /** The entry after X[i], or 0 past the end. */
  function Next(X: seq<real>, i: nat): real
  {
    if i + 1 < |X| then X[i + 1] else 0.0
  }

  /** X solves A * X = d. */
  ghost predicate Solves(X: seq<real>, d: seq<real>)
  {
    |X| == |d| && forall i :: 0 <= i < |X| ==> RowValue(X, i) == d[i]
  }

  /** The pivot b[i] - a[i] * c[i-1] of the forward sweep; it never falls below 3/2,
      and stays at least 2 off the last row, so no division by zero occurs. */
  function Pivot(l: nat, i: nat): (p: real)
    requires i < l
    ensures p >= 1.5
    ensures i < l - 1 ==> p >= 2.0
    decreases i
  {
    if i == 0 then 2.0 else Diag(l, i) - 1.0 / Pivot(l, i - 1)
  }

  /** The normalised super-diagonal c[i] after the forward sweep. */
  function Super(l: nat, i: nat): real
    requires i < l
  {
    1.0 / Pivot(l, i)
  }

  /** The right-hand side x[i] after the forward sweep. */
  function Forward(d: seq<real>, i: nat): real
    requires i < |d|
    decreases i
  {
    (d[i] - (if i == 0 then 0.0 else Forward(d, i - 1))) / Pivot(|d|, i)
  }

  /** x[i] after back substitution. */
  function Back(d: seq<real>, i: nat): real
    requires i < |d|
    decreases |d| - i
  {
    if i == |d| - 1 then Forward(d, i) else Forward(d, i) - Super(|d|, i) * Back(d, i + 1)
  }

  /** The vector the Thomas algorithm leaves in place of d. */
  function ThomasSolve(d: seq<real>): (X: seq<real>)
    ensures |X| == |d|
  {
    seq(|d|, i requires 0 <= i < |d| => Back(d, i))
  }

  /** Every normalised super-diagonal entry lies in (0, 1/2]. */
  lemma SuperBounds(l: nat, i: nat)
    requires i < l - 1
    ensures 0.0 < Super(l, i) <= 0.5
  {
  }

  /** The pivot times its normalised super-diagonal and its eliminated right-hand side. */
  lemma ForwardStep(d: seq<real>, i: nat)
    requires i < |d|
    ensures Pivot(|d|, i) * Super(|d|, i) == 1.0
    ensures Pivot(|d|, i) * Forward(d, i) == d[i] - (if i == 0 then 0.0 else Forward(d, i - 1))
  {
  }

  /** The entry before s[i], or 0 before the start. */
  function Prev(s: seq<real>, i: nat): real
  {
    if 0 < i <= |s| then s[i - 1] else 0.0
  }

  /** The forward sweep as relations without division: P holds the pivots,
      S the normalised super-diagonal, F the eliminated right-hand side. */
  ghost predicate Sweep(d: seq<real>, P: seq<real>, S: seq<real>, F: seq<real>)
  {
    |P| == |S| == |F| == |d| && forall i :: 0 <= i < |d| ==> SweepAt(d, P, S, F, i)
  }

  /** Row i of the sweep relations. */
  ghost predicate SweepAt(d: seq<real>, P: seq<real>, S: seq<real>, F: seq<real>, i: nat)
    requires |P| == |S| == |F| == |d| && i < |d|
  {
    P[i] == Diag(|d|, i) - Prev(S, i) && P[i] > 0.0 &&
    P[i] * S[i] == 1.0 && P[i] * F[i] == d[i] - Prev(F, i)
  }

  /** X is obtained from S and F by back substitution. */
  ghost predicate BackSubst(S: seq<real>, F: seq<real>, X: seq<real>)
  {
    |S| == |F| == |X| && forall i :: 0 <= i < |X| ==> BackAt(S, F, X, i)
  }

  /** Row i of back substitution. */
  ghost predicate BackAt(S: seq<real>, F: seq<real>, X: seq<real>, i: nat)
    requires |S| == |F| == |X| && i < |X|
  {
    X[i] == F[i] - S[i] * Next(X, i)
  }

  function Pivots(l: nat): (P: seq<real>)
    ensures |P| == l
  {
    seq(l, i requires 0 <= i < l => Pivot(l, i))
  }

  function Supers(l: nat): (S: seq<real>)
    ensures |S| == l
  {
    seq(l, i requires 0 <= i < l => Super(l, i))
  }

  function Forwards(d: seq<real>): (F: seq<real>)
    ensures |F| == |d|
  {
    seq(|d|, i requires 0 <= i < |d| => Forward(d, i))
  }

  /** The recursive definitions satisfy the sweep relations. */
  lemma SweepHolds(d: seq<real>)
    ensures Sweep(d, Pivots(|d|), Supers(|d|), Forwards(d))
  {
    var l := |d|;
    var P, S, F := Pivots(l), Supers(l), Forwards(d);
    forall i | 0 <= i < l
      ensures SweepAt(d, P, S, F, i)
    {
      ForwardStep(d, i);
      assert P[i] == Pivot(l, i) && S[i] == Super(l, i) && F[i] == Forward(d, i);
      assert Prev(S, i) == if i == 0 then 0.0 else Super(l, i - 1);
      assert Prev(F, i) == if i == 0 then 0.0 else Forward(d, i - 1);
    }
  }

  /** Back substitution produces ThomasSolve. */
  lemma BackSubstHolds(d: seq<real>)
    ensures BackSubst(Supers(|d|), Forwards(d), ThomasSolve(d))
  {
    var X, S, F := ThomasSolve(d), Supers(|d|), Forwards(d);
    forall i | 0 <= i < |X|
      ensures BackAt(S, F, X, i)
    {
      assert X[i] == Back(d, i) && S[i] == Super(|d|, i) && F[i] == Forward(d, i);
      assert Next(X, i) == if i + 1 < |X| then Back(d, i + 1) else 0.0;
    }
  }

  /** Eliminating with a unit pivot product: p * s == 1 and p * f == r give p * (f - s * n) == r - n. */
  lemma Eliminate(p: real, s: real, f: real, r: real, n: real)
    requires p * s == 1.0 && p * f == r
    ensures p * (f - s * n) == r - n
  {
    calc {
      p * (f - s * n);
      p * f - (p * s) * n;
      r - n;
    }
  }

  /** Substituting the previous eliminated row into row i. */
  lemma RowReduce(xp: real, diag: real, x: real, n: real, di: real, prev: real, sp: real, p: real)
    requires xp + diag * x + n == di && xp == prev - sp * x && diag == p + sp
    ensures p * x + n == di - prev
  {
    assert diag * x == p * x + sp * x;
  }

  /** Dividing an eliminated row by its pivot: from p * x + n == r, p * s == 1 and
      p * f == r it follows that x + s * n == f. */
  lemma Unnormalise(p: real, s: real, x: real, n: real, f: real, r: real)
    requires p > 0.0 && p * s == 1.0 && p * x + n == r && p * f == r
    ensures x + s * n == f
  {
    assert p * (x + s * n) == p * x + (p * s) * n;
    assert p * (x + s * n) == p * f;
  }

  /** Any back substitution over a valid sweep satisfies row i. */
  lemma SweepRow(d: seq<real>, P: seq<real>, S: seq<real>, F: seq<real>, X: seq<real>, i: nat)
    requires Sweep(d, P, S, F) && BackSubst(S, F, X) && i < |d|
    ensures RowValue(X, i) == d[i]
  {
    var n := Next(X, i);
    assert SweepAt(d, P, S, F, i) && BackAt(S, F, X, i);
    Eliminate(P[i], S[i], F[i], d[i] - Prev(F, i), n);
    assert P[i] * X[i] == d[i] - Prev(F, i) - n;
    if i > 0 {
      assert BackAt(S, F, X, i - 1);
      assert X[i - 1] == F[i - 1] - S[i - 1] * X[i];
      assert Diag(|d|, i) * X[i] == P[i] * X[i] + S[i - 1] * X[i];
    }
  }

  /** Any solution of the system satisfies the eliminated rows 0..i. */
  lemma {:induction false} SweepEliminated(d: seq<real>, P: seq<real>, S: seq<real>, F: seq<real>, X: seq<real>, i: nat)
    requires Sweep(d, P, S, F) && Solves(X, d) && i < |d|
    ensures X[i] + S[i] * Next(X, i) == F[i]
    decreases i
  {
    var n := Next(X, i);
    assert SweepAt(d, P, S, F, i);
    assert P[i] * X[i] + n == d[i] - Prev(F, i) by {
      assert RowValue(X, i) == d[i];
      if i > 0 {
        SweepEliminated(d, P, S, F, X, i - 1);
        assert X[i - 1] == F[i - 1] - S[i - 1] * X[i];
        RowReduce(X[i - 1], Diag(|d|, i), X[i], n, d[i], F[i - 1], S[i - 1], P[i]);
      }
    }
    Unnormalise(P[i], S[i], X[i], n, F[i], d[i] - Prev(F, i));
  }

  /** Two back substitutions from the same S and F agree from row i on. */
  lemma {:induction false} BackSubstUnique(S: seq<real>, F: seq<real>, X: seq<real>, Y: seq<real>, i: nat)
    requires BackSubst(S, F, X) && BackSubst(S, F, Y) && i <= |X|
    ensures X[i..] == Y[i..]
    decreases |X| - i
  {
    if i < |X| {
      BackSubstUnique(S, F, X, Y, i + 1);
      assert Next(X, i) == Next(Y, i) by {
        if i + 1 < |X| {
          assert X[i + 1] == X[i + 1..][0] == Y[i + 1..][0] == Y[i + 1];
        }
      }
      assert BackAt(S, F, X, i) && BackAt(S, F, Y, i);
      assert X[i] == Y[i];
      assert X[i..] == [X[i]] + X[i + 1..];
      assert Y[i..] == [Y[i]] + Y[i + 1..];
    }
  }

  /** Any back substitution over a valid sweep solves the system. */
  lemma SweepSolves(d: seq<real>, P: seq<real>, S: seq<real>, F: seq<real>, X: seq<real>)
    requires Sweep(d, P, S, F) && BackSubst(S, F, X)
    ensures Solves(X, d)
  {
    forall i | 0 <= i < |d|
      ensures RowValue(X, i) == d[i]
    {
      SweepRow(d, P, S, F, X, i);
    }
  }

  /** Back substitution solves every row of the system. */
  lemma ThomasSolves(d: seq<real>)
    ensures Solves(ThomasSolve(d), d)
  {
    SweepHolds(d);
    BackSubstHolds(d);
    forall i | 0 <= i < |d|
      ensures RowValue(ThomasSolve(d), i) == d[i]
    {
      SweepRow(d, Pivots(|d|), Supers(|d|), Forwards(d), ThomasSolve(d), i);
    }
  }

  /** The system has exactly one solution: any X that solves it is the one
      the Thomas algorithm computes. */
  lemma ThomasUnique(X: seq<real>, d: seq<real>)
    requires Solves(X, d)
    ensures X == ThomasSolve(d)
  {
    var S, F := Supers(|d|), Forwards(d);
    SweepHolds(d);
    BackSubstHolds(d);
    forall i | 0 <= i < |d|
      ensures BackAt(S, F, X, i)
    {
      SweepEliminated(d, Pivots(|d|), S, F, X, i);
    }
    BackSubstUnique(S, F, X, ThomasSolve(d), 0);
  }

  /** The sweep and back-substitution vectors of d, known only through their relations. */
  lemma SweepOf(d: seq<real>) returns (P: seq<real>, S: seq<real>, F: seq<real>, X: seq<real>)
    ensures Sweep(d, P, S, F) && BackSubst(S, F, X)
  {
    SweepHolds(d);
    BackSubstHolds(d);
    P, S, F, X := Pivots(|d|), Supers(|d|), Forwards(d), ThomasSolve(d);
  }

  /** The Go loop multiplies by m == 1 / pivot where the relations divide. */
  lemma ByInverse(p: real, s: real, f: real, r: real, m: real)
    requires p > 0.0 && m == 1.0 / p && p * s == 1.0 && p * f == r
    ensures 1.0 * m == s && r * m == f
  {
    assert m * p == 1.0;
    assert s == s * (p * m) == (s * p) * m == m;
    assert f == f * (p * m) == (f * p) * m == r * m;
  }

  /** getCubicSplinCoeffs: the Thomas algorithm run in place. On return x holds
      the solution of the natural-spline system whose right-hand side it held
      on entry; the sub-, main and super-diagonal buffers are local. */
  method GetCubicSplineCoeffs(x: array<real>)
    requires x.Length >= 1
    modifies x
    ensures x[..] == ThomasSolve(old(x[..]))
    ensures Solves(x[..], old(x[..]))
  {
    ghost var d := x[..];
    ghost var P, S, F, X := SweepOf(d);
    var l := x.Length;
    var a := MakeConstVec(1.0, l);
    var b := MakeConstVec(4.0, l);
    b[0] := 2.0;
    b[l - 1] := 2.0;
    var c := MakeConstVec(1.0, l);
    ForwardSweep(x, a, b, c, P, S, F);
    BackSubstitute(x, c, S, F, X);
    SweepSolves(d, P, S, F, X);
    ThomasUnique(X, d);
  }

  /** The forward elimination of getCubicSplinCoeffs: normalises row 0, then
      eliminates the sub-diagonal row by row, rewriting c and x in place. */
  method ForwardSweep(x: array<real>, a: array<real>, b: array<real>, c: array<real>,
                      ghost P: seq<real>, ghost S: seq<real>, ghost F: seq<real>)
    requires x.Length == a.Length == b.Length == c.Length >= 1
    requires x != c && x != a && x != b && a != c && b != c
    requires Sweep(x[..], P, S, F)
    requires forall j :: 0 <= j < x.Length ==> a[j] == 1.0 && b[j] == Diag(x.Length, j) && c[j] == 1.0
    modifies x, c
    ensures x[..] == F && c[..] == S
  {
    ghost var d := x[..];
    var l := x.Length;
    assert c[0] / b[0] == S[0] && x[0] / b[0] == F[0] by {
      assert SweepAt(d, P, S, F, 0);
      ByInverse(P[0], S[0], F[0], d[0], 1.0 / b[0]);
    }
    c[0] := c[0] / b[0];
    x[0] := x[0] / b[0];
    var i := 1;
    while i < l
      invariant 1 <= i <= l
      invariant forall j :: 0 <= j < i ==> c[j] == S[j] && x[j] == F[j]
      invariant forall j :: i <= j < l ==> c[j] == 1.0 && x[j] == d[j]
    {
      var pivot := b[i] - a[i] * c[i - 1];
      assert pivot == P[i] && P[i] > 0.0 by {
        assert SweepAt(d, P, S, F, i);
      }
      var m := 1.0 / pivot;
      assert c[i] * m == S[i] && (x[i] - a[i] * x[i - 1]) * m == F[i] by {
        assert SweepAt(d, P, S, F, i);
        ByInverse(P[i], S[i], F[i], d[i] - F[i - 1], m);
      }
      c[i] := c[i] * m;
      x[i] := (x[i] - a[i] * x[i - 1]) * m;
      i := i + 1;
    }
    assert x[..] == F;
    assert c[..] == S;
  }

  /** The back substitution of getCubicSplinCoeffs, from row l - 2 down to row 0. */
  method BackSubstitute(x: array<real>, c: array<real>, ghost S: seq<real>, ghost F: seq<real>, ghost X: seq<real>)
    requires x.Length == c.Length >= 1 && x != c
    requires BackSubst(S, F, X) && |X| == x.Length
    requires c[..] == S && x[..] == F
    modifies x
    ensures x[..] == X
  {
    var l := x.Length;
    assert x[l - 1] == X[l - 1] by {
      assert BackAt(S, F, X, l - 1);
    }
    var i := l - 2;
    while i >= 0
      invariant -1 <= i <= l - 2
      invariant forall j :: 0 <= j < l ==> c[j] == S[j]
      invariant forall j :: 0 <= j <= i ==> x[j] == F[j]
      invariant forall j :: i < j < l ==> x[j] == X[j]
    {
      assert x[i] - c[i] * x[i + 1] == X[i] by {
        assert BackAt(S, F, X, i);
      }
      x[i] := x[i] - c[i] * x[i + 1];
      i := i - 1;
    }
    assert x[..] == X;
  }

  // ---------------------------------------------------------------------------
  // The spline

  /** Paired samples; the spline reads Xs and Ys. */
  datatype BiVariateData = BiVariateData(xs: seq<real>, ys: seq<real>)

  /** The sample data and one tangent coefficient per sample. */
  datatype CubicSplineInterpolation = CubicSplineInterpolation(data: BiVariateData, coeffs: seq<real>)

  /** The right-hand side 3 * dy: one-sided differences at the ends, central ones inside. */
  function SplineRhs(ys: seq<real>): (fs: seq<real>)
    requires |ys| >= 2
    ensures |fs| == |ys|
  {
    seq(|ys|, i requires 0 <= i < |ys| =>
      if i == 0 then 3.0 * (ys[1] - ys[0])
      else if i == |ys| - 1 then 3.0 * (ys[i] - ys[i - 1])
      else 3.0 * (ys[i + 1] - ys[i - 1]))
  }

  /** CubicSpline: fills the right-hand side and solves for the tangents in place.
      The coefficients it stores are the unique solution of the natural-spline system. */
  method CubicSpline(d: BiVariateData) returns (spline: CubicSplineInterpolation)
    requires |d.ys| >= 2
    ensures spline.data == d
    ensures Solves(spline.coeffs, SplineRhs(d.ys))
  {
    var n := |d.ys|;
    var fs := new real[n];
    fs[0] := 3.0 * (d.ys[1] - d.ys[0]);
    var i := 1;
    while i < n - 1
      invariant 1 <= i <= n - 1
      invariant fs[0] == SplineRhs(d.ys)[0]
      invariant forall j :: 1 <= j < i ==> fs[j] == SplineRhs(d.ys)[j]
    {
      fs[i] := 3.0 * (d.ys[i + 1] - d.ys[i - 1]);
      i := i + 1;
    }
    fs[n - 1] := 3.0 * (d.ys[n - 1] - d.ys[n - 2]);
    assert fs[..] == SplineRhs(d.ys);
    GetCubicSplineCoeffs(fs);
    spline := CubicSplineInterpolation(d, fs[..]);
  }

  // ---------------------------------------------------------------------------
  // Evaluation

  /** A cubic a + b t + c t^2 + d t^3 in the segment parameter t. */
  datatype Cubic = Cubic(a: real, b: real, c: real, d: real)

  function Value(p: Cubic, t: real): real
  {
    p.a + p.b * t + p.c * t * t + p.d * t * t * t
  }

  /** The derivative of Value with respect to t. */
  function Slope(p: Cubic, t: real): real
  {
    p.b + 2.0 * p.c * t + 3.0 * p.d * t * t
  }

  /** The second derivative of Value with respect to t. */
  function Curvature(p: Cubic, t: real): real
  {
    2.0 * p.c + 6.0 * p.d * t
  }

  /** The Hermite cubic of segment i, built from y_i, y_{i+1}, D_i and D_{i+1}. */
  function SegmentCubic(ys: seq<real>, D: seq<real>, i: nat): Cubic
    requires i + 1 < |ys| && |D| == |ys|
  {
    Cubic(ys[i], D[i],
          3.0 * (ys[i + 1] - ys[i]) - 2.0 * D[i] - D[i + 1],
          2.0 * (ys[i] - ys[i + 1]) + D[i] + D[i + 1])
  }

  /** The cubic Hermite interpolant in Lagrange form: the four basis polynomials
      h00 = 2t^3 - 3t^2 + 1, h10 = t^3 - 2t^2 + t, h01 = -2t^3 + 3t^2 and
      h11 = t^3 - t^2 weighting y_i, D_i, y_{i+1} and D_{i+1}. */
  function Hermite(yi: real, di: real, yi1: real, di1: real, t: real): real
  {
    (2.0 * t * t * t - 3.0 * t * t + 1.0) * yi
      + (t * t * t - 2.0 * t * t + t) * di
      + (-2.0 * t * t * t + 3.0 * t * t) * yi1
      + (t * t * t - t * t) * di1
  }

  /** The t-derivative of the Hermite form, basis by basis. */
  function HermiteSlope(yi: real, di: real, yi1: real, di1: real, t: real): real
  {
    (6.0 * t * t - 6.0 * t) * yi
      + (3.0 * t * t - 4.0 * t + 1.0) * di
      + (-6.0 * t * t + 6.0 * t) * yi1
      + (3.0 * t * t - 2.0 * t) * di1
  }

  /** The second t-derivative of the Hermite form, basis by basis. */
  function HermiteCurvature(yi: real, di: real, yi1: real, di1: real, t: real): real
  {
    (12.0 * t - 6.0) * yi + (6.0 * t - 4.0) * di + (6.0 - 12.0 * t) * yi1 + (6.0 * t - 2.0) * di1
  }

  /** The power-basis coefficients a, b, c, d of a segment are those of its Hermite form. */
  lemma HermiteSegment(ys: seq<real>, D: seq<real>, i: nat, t: real)
    requires i + 1 < |ys| && |D| == |ys|
    ensures Value(SegmentCubic(ys, D, i), t) == Hermite(ys[i], D[i], ys[i + 1], D[i + 1], t)
    ensures Slope(SegmentCubic(ys, D, i), t) == HermiteSlope(ys[i], D[i], ys[i + 1], D[i + 1], t)
    ensures Curvature(SegmentCubic(ys, D, i), t) == HermiteCurvature(ys[i], D[i], ys[i + 1], D[i + 1], t)
  {
  }

  ghost predicate StrictlyIncreasing(xs: seq<real>)
  {
    forall i, j :: 0 <= i < j < |xs| ==> xs[i] < xs[j]
  }

  /** A spline the evaluators accept: matching lengths, at least two samples,
      ascending distinct abscissae. */
  ghost predicate ValidSpline(s: CubicSplineInterpolation)
  {
    |s.data.xs| == |s.data.ys| == |s.coeffs| >= 2 && StrictlyIncreasing(s.data.xs)
  }

  /** findXBounds: the index pair (i, i + 1) of the segment used for x. At or
      beyond the last sample it is the last segment; at or before the first
      sample, the first. Inside the range the segment is the one whose left
      knot is the last knot not above x; this interior rule is the model's
      own choice, since the Go body of findXBounds is not available. */
  function FindXBounds(xs: seq<real>, x: real): (r: (nat, nat))
    requires |xs| >= 2
    ensures r.1 == r.0 + 1 && r.1 < |xs|
    ensures x >= xs[|xs| - 1] ==> r == (|xs| - 2, |xs| - 1)
    ensures x <= xs[0] && x < xs[|xs| - 1] ==> r == (0, 1)
    ensures xs[0] < x < xs[|xs| - 1] ==>
      (forall j :: 0 < j <= r.0 ==> xs[j] <= x) && (r.0 < |xs| - 2 ==> x < xs[r.0 + 1])
  {
    if x >= xs[|xs| - 1] then (|xs| - 2, |xs| - 1)
    else if x <= xs[0] then (0, 1)
    else var i := ScanSegment(xs, x, 0); (i, i + 1)
  }

  /** The forward scan of findXBounds from segment i. */
  function ScanSegment(xs: seq<real>, x: real, i: nat): (k: nat)
    requires i + 2 <= |xs|
    ensures i <= k <= |xs| - 2
    ensures forall j :: i < j <= k ==> xs[j] <= x
    ensures k < |xs| - 2 ==> x < xs[k + 1]
    decreases |xs| - i
  {
    if i == |xs| - 2 || x < xs[i + 1] then i else ScanSegment(xs, x, i + 1)
  }

  /** The width of segment i. */
  function Width(s: CubicSplineInterpolation, i: nat): real
    requires ValidSpline(s) && i + 1 < |s.data.xs|
  {
    s.data.xs[i + 1] - s.data.xs[i]
  }

  /** The normalised parameter t of x on segment i; it is not clamped to [0, 1]. */
  function Param(s: CubicSplineInterpolation, i: nat, x: real): real
    requires ValidSpline(s) && i + 1 < |s.data.xs|
  {
    (x - s.data.xs[i]) / Width(s, i)
  }

  /** The cubic of segment i evaluated at x. */
  function SegmentF(s: CubicSplineInterpolation, i: nat, x: real): real
    requires ValidSpline(s) && i + 1 < |s.data.xs|
  {
    Value(SegmentCubic(s.data.ys, s.coeffs, i), Param(s, i, x))
  }

  /** The x-derivative of segment i's cubic: the t-slope over the width. */
  function SegmentDF(s: CubicSplineInterpolation, i: nat, x: real): real
    requires ValidSpline(s) && i + 1 < |s.data.xs|
  {
    Slope(SegmentCubic(s.data.ys, s.coeffs, i), Param(s, i, x)) / Width(s, i)
  }

  /** The second x-derivative of segment i's cubic: the t-curvature over the squared
      width, written as two divisions by the width. */
  function SegmentDDF(s: CubicSplineInterpolation, i: nat, x: real): real
    requires ValidSpline(s) && i + 1 < |s.data.xs|
  {
    Curvature(SegmentCubic(s.data.ys, s.coeffs, i), Param(s, i, x)) / Width(s, i) / Width(s, i)
  }

  /** The interpolated value at x: the Hermite interpolant of the bracketing segment
      at the unclamped parameter t. */
  function F(s: CubicSplineInterpolation, x: real): (r: real)
    requires ValidSpline(s)
    ensures var i := FindXBounds(s.data.xs, x).0;
      r == Hermite(s.data.ys[i], s.coeffs[i], s.data.ys[i + 1], s.coeffs[i + 1], Param(s, i, x))
  {
    var (i, _) := FindXBounds(s.data.xs, x);
    HermiteSegment(s.data.ys, s.coeffs, i, Param(s, i, x));
    SegmentF(s, i, x)
  }

  /** The interpolated first derivative at x: the t-derivative of the bracketing
      segment's Hermite interpolant over the segment width. */
  function DF(s: CubicSplineInterpolation, x: real): (r: real)
    requires ValidSpline(s)
    ensures var i := FindXBounds(s.data.xs, x).0;
      r == HermiteSlope(s.data.ys[i], s.coeffs[i], s.data.ys[i + 1], s.coeffs[i + 1], Param(s, i, x)) / Width(s, i)
  {
    var (i, _) := FindXBounds(s.data.xs, x);
    HermiteSegment(s.data.ys, s.coeffs, i, Param(s, i, x));
    SegmentDF(s, i, x)
  }

  /** The interpolated second derivative at x: the second t-derivative of the
      bracketing segment's Hermite interpolant over the squared width. */
  function DDF(s: CubicSplineInterpolation, x: real): (r: real)
    requires ValidSpline(s)
    ensures var i := FindXBounds(s.data.xs, x).0;
      r == HermiteCurvature(s.data.ys[i], s.coeffs[i], s.data.ys[i + 1], s.coeffs[i + 1], Param(s, i, x))
        / Width(s, i) / Width(s, i)
  {
    var (i, _) := FindXBounds(s.data.xs, x);
    HermiteSegment(s.data.ys, s.coeffs, i, Param(s, i, x));
    SegmentDDF(s, i, x)
  }

  /** The segment findXBounds picks for the sample x_k. */
  lemma {:induction false} KnotSegment(s: CubicSplineInterpolation, k: nat)
    requires ValidSpline(s) && k < |s.data.xs|
    ensures FindXBounds(s.data.xs, s.data.xs[k]).0 == if k < |s.data.xs| - 1 then k else k - 1
  {
    var xs := s.data.xs;
    var n := |xs|;
    var i := FindXBounds(xs, xs[k]).0;
    if 0 < k < n - 1 {
      assert xs[0] < xs[k] < xs[n - 1];
      ScanFindsKnot(xs, k, 0);
    } else if k == 0 {
      assert xs[0] < xs[n - 1];
    }
  }

  /** Scanning from segment i <= k stops at segment k when x is the sample x_k. */
  lemma {:induction false} ScanFindsKnot(xs: seq<real>, k: nat, i: nat)
    requires StrictlyIncreasing(xs) && i <= k <= |xs| - 2
    ensures ScanSegment(xs, xs[k], i) == k
    decreases k - i
  {
    if i < k {
      assert xs[i + 1] <= xs[k];
      ScanFindsKnot(xs, k, i + 1);
    } else {
      assert xs[k] < xs[k + 1];
    }
  }

  /** F reproduces every sample: F(x_k) == y_k. */
  lemma FAtKnots(s: CubicSplineInterpolation, k: nat)
    requires ValidSpline(s) && k < |s.data.xs|
    ensures F(s, s.data.xs[k]) == s.data.ys[k]
  {
    KnotSegment(s, k);
    if k < |s.data.xs| - 1 {
      ParamAtEnds(s, k);
      HermiteEnds(s.data.ys, s.coeffs, k);
    } else {
      ParamAtEnds(s, k - 1);
      HermiteEnds(s.data.ys, s.coeffs, k - 1);
    }
  }

  lemma TimesQuotient(a: real, w: real)
    requires w != 0.0
    ensures (a / w) * w == a
  {
  }

  /** DF at a sample is the stored tangent over the width of the segment used there;
      on equally spaced samples coeffs[k] == DF(x_k) * h. */
  lemma DFAtKnots(s: CubicSplineInterpolation, k: nat, h: real)
    requires ValidSpline(s) && k < |s.data.xs|
    ensures var i := if k < |s.data.xs| - 1 then k else k - 1;
      DF(s, s.data.xs[k]) == s.coeffs[k] / Width(s, i)
    ensures (forall j :: 0 <= j < |s.data.xs| - 1 ==> Width(s, j) == h) ==>
      s.coeffs[k] == DF(s, s.data.xs[k]) * h
  {
    KnotSegment(s, k);
    var i := if k < |s.data.xs| - 1 then k else k - 1;
    ParamAtEnds(s, i);
    HermiteEnds(s.data.ys, s.coeffs, i);
    assert DF(s, s.data.xs[k]) == s.coeffs[k] / Width(s, i);
    TimesQuotient(s.coeffs[k], Width(s, i));
  }

  /** Each segment's parameter runs from 0 at its left sample to 1 at its right sample. */
  lemma ParamAtEnds(s: CubicSplineInterpolation, i: nat)
    requires ValidSpline(s) && i + 1 < |s.data.xs|
    ensures Param(s, i, s.data.xs[i]) == 0.0
    ensures Param(s, i, s.data.xs[i + 1]) == 1.0
  {
    var w := Width(s, i);
    assert w == s.data.xs[i + 1] - s.data.xs[i] > 0.0;
    assert Param(s, i, s.data.xs[i + 1]) == w / w == 1.0;
  }

  /** The Hermite cubic of segment i takes the end values y_i, y_{i+1} and the
      end slopes D_i, D_{i+1}. */
  lemma HermiteEnds(ys: seq<real>, D: seq<real>, i: nat)
    requires i + 1 < |ys| && |D| == |ys|
    ensures Value(SegmentCubic(ys, D, i), 0.0) == ys[i]
    ensures Value(SegmentCubic(ys, D, i), 1.0) == ys[i + 1]
    ensures Slope(SegmentCubic(ys, D, i), 0.0) == D[i]
    ensures Slope(SegmentCubic(ys, D, i), 1.0) == D[i + 1]
  {
  }

  /** The curvature condition at sample k: zero curvature at the two end samples,
      equal curvature (in t) of the two segments meeting at an interior sample. */
  ghost predicate CurvatureJoin(ys: seq<real>, D: seq<real>, k: nat)
    requires |D| == |ys| >= 2 && k < |ys|
  {
    if k == 0 then Curvature(SegmentCubic(ys, D, 0), 0.0) == 0.0
    else if k == |ys| - 1 then Curvature(SegmentCubic(ys, D, k - 1), 1.0) == 0.0
    else Curvature(SegmentCubic(ys, D, k - 1), 1.0) == Curvature(SegmentCubic(ys, D, k), 0.0)
  }

  /** A natural, curvature-continuous piecewise Hermite cubic. */
  ghost predicate NaturalC2(ys: seq<real>, D: seq<real>)
  {
    |D| == |ys| >= 2 && forall k :: 0 <= k < |ys| ==> CurvatureJoin(ys, D, k)
  }

  /** Row k of the tridiagonal system holds exactly when the curvature condition
      at sample k holds. */
  lemma NaturalRow(ys: seq<real>, D: seq<real>, k: nat)
    requires |D| == |ys| >= 2 && k < |ys|
    ensures RowValue(D, k) == SplineRhs(ys)[k] <==> CurvatureJoin(ys, D, k)
  {
  }

  /** The tangents solve the system CubicSpline builds iff the piecewise cubic is
      natural (zero end curvature) and twice continuously differentiable in t. */
  lemma NaturalIffSolves(ys: seq<real>, D: seq<real>)
    requires |D| == |ys| >= 2
    ensures Solves(D, SplineRhs(ys)) <==> NaturalC2(ys, D)
  {
    forall k | 0 <= k < |ys|
      ensures RowValue(D, k) == SplineRhs(ys)[k] <==> CurvatureJoin(ys, D, k)
    {
      NaturalRow(ys, D, k);
    }
  }

  /** Dividing by a positive number keeps equalities and zeros. */
  lemma DivideBoth(a: real, b: real, q: real)
    requires q > 0.0
    ensures a / q == b / q <==> a == b
    ensures a / q == 0.0 <==> a == 0.0
  {
    if a / q == b / q {
      assert a == (a / q) * q && b == (b / q) * q;
    }
  }

  /** Dividing twice by a positive width keeps equalities and zeros. */
  lemma DivideTwice(a: real, b: real, w: real)
    requires w > 0.0
    ensures a / w / w == b / w / w <==> a == b
    ensures a / w / w == 0.0 <==> a == 0.0
  {
    DivideBoth(a / w, b / w, w);
    DivideBoth(a, b, w);
  }

  /** Neighbouring segments agree at the sample they share: F is continuous. On
      equally spaced samples DF is continuous too. */
  lemma Continuity(s: CubicSplineInterpolation, k: nat, h: real)
    requires ValidSpline(s) && 0 < k < |s.data.xs| - 1
    ensures SegmentF(s, k - 1, s.data.xs[k]) == s.data.ys[k] == SegmentF(s, k, s.data.xs[k])
    ensures Width(s, k - 1) == Width(s, k) ==>
      SegmentDF(s, k - 1, s.data.xs[k]) == SegmentDF(s, k, s.data.xs[k])
  {
    ParamAtEnds(s, k - 1);
    ParamAtEnds(s, k);
    HermiteEnds(s.data.ys, s.coeffs, k - 1);
    HermiteEnds(s.data.ys, s.coeffs, k);
  }

  /** The curvature condition at the first sample, read through DDF. */
  lemma StartInX(s: CubicSplineInterpolation)
    requires ValidSpline(s)
    ensures CurvatureJoin(s.data.ys, s.coeffs, 0) <==> DDF(s, s.data.xs[0]) == 0.0
  {
    KnotSegment(s, 0);
    ParamAtEnds(s, 0);
    assert DDF(s, s.data.xs[0]) == SegmentDDF(s, 0, s.data.xs[0]);
    DivideTwice(Curvature(SegmentCubic(s.data.ys, s.coeffs, 0), 0.0), 0.0, Width(s, 0));
  }

  /** The curvature condition at the last sample, read through DDF. */
  lemma EndInX(s: CubicSplineInterpolation)
    requires ValidSpline(s)
    ensures CurvatureJoin(s.data.ys, s.coeffs, |s.data.xs| - 1) <==>
      DDF(s, s.data.xs[|s.data.xs| - 1]) == 0.0
  {
    var n := |s.data.xs|;
    KnotSegment(s, n - 1);
    ParamAtEnds(s, n - 2);
    assert DDF(s, s.data.xs[n - 1]) == SegmentDDF(s, n - 2, s.data.xs[n - 1]);
    DivideTwice(Curvature(SegmentCubic(s.data.ys, s.coeffs, n - 2), 1.0), 0.0, Width(s, n - 2));
  }

  /** The curvature condition at an interior sample, read through the two
      segments' second derivatives, when both segments have the same width. */
  lemma JoinInX(s: CubicSplineInterpolation, k: nat)
    requires ValidSpline(s) && 0 < k < |s.data.xs| - 1
    requires Width(s, k - 1) == Width(s, k)
    ensures CurvatureJoin(s.data.ys, s.coeffs, k) <==>
      SegmentDDF(s, k - 1, s.data.xs[k]) == SegmentDDF(s, k, s.data.xs[k])
  {
    ParamAtEnds(s, k - 1);
    ParamAtEnds(s, k);
    DivideTwice(Curvature(SegmentCubic(s.data.ys, s.coeffs, k - 1), 1.0),
                Curvature(SegmentCubic(s.data.ys, s.coeffs, k), 0.0), Width(s, k));
  }

  /** On equally spaced samples the stored tangents solve CubicSpline's system iff
      the interpolant has zero second derivative at both end samples and the
      neighbouring segments' second derivatives agree at every interior sample. */
  lemma NaturalSplineInX(s: CubicSplineInterpolation, h: real)
    requires ValidSpline(s)
    requires forall j :: 0 <= j < |s.data.xs| - 1 ==> Width(s, j) == h
    ensures Solves(s.coeffs, SplineRhs(s.data.ys)) <==>
      DDF(s, s.data.xs[0]) == 0.0 &&
      DDF(s, s.data.xs[|s.data.xs| - 1]) == 0.0 &&
      forall k :: 0 < k < |s.data.xs| - 1 ==>
        SegmentDDF(s, k - 1, s.data.xs[k]) == SegmentDDF(s, k, s.data.xs[k])
  {
    var xs, ys, D := s.data.xs, s.data.ys, s.coeffs;
    var n := |xs|;
    NaturalIffSolves(ys, D);
    StartInX(s);
    EndInX(s);
    forall k | 0 < k < n - 1
      ensures CurvatureJoin(ys, D, k) <==> SegmentDDF(s, k - 1, xs[k]) == SegmentDDF(s, k, xs[k])
    {
      assert Width(s, k - 1) == h == Width(s, k);
      JoinInX(s, k);
    }
  }

  lemma QuotientAboveOne(a: real, q: real)
    requires q > 0.0 && a > q
    ensures a / q > 1.0
  {
    assert a == (a / q) * q;
  }

  lemma QuotientNegative(a: real, q: real)
    requires q > 0.0 && a < 0.0
    ensures a / q < 0.0
  {
    assert a == (a / q) * q;
  }

  /** Outside the sampled range the end segments' cubics are extended: beyond the
      last sample the last segment is used with t > 1, before the first sample the
      first segment with t < 0. */
  lemma Extrapolation(s: CubicSplineInterpolation, x: real)
    requires ValidSpline(s)
    ensures x > s.data.xs[|s.data.xs| - 1] ==>
      F(s, x) == SegmentF(s, |s.data.xs| - 2, x) && Param(s, |s.data.xs| - 2, x) > 1.0
    ensures x < s.data.xs[0] ==>
      F(s, x) == SegmentF(s, 0, x) && Param(s, 0, x) < 0.0
  {
    var xs := s.data.xs;
    var n := |xs|;
    if x > xs[n - 1] {
      QuotientAboveOne(x - xs[n - 2], Width(s, n - 2));
    }
    if x < xs[0] {
      assert xs[0] < xs[n - 1];
      QuotientNegative(x - xs[0], Width(s, 0));
    }
  }
}
