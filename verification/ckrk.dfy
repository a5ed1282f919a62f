/**
 * The Cash-Karp embedded Runge-Kutta step and its adaptive driver (ode/ckrk.go).
 * A step evaluates six stages, combines them into the embedded fourth-order
 * solution nxs (weights B21..B26) and the fifth-order comparison estimate est1
 * (weights B11..B16), and reports the mean absolute difference of
 * the two as the error.
 */
module CashKarp {
  import opened RealSeqs

  // ---------------------------------------------------------------------------
  // The Butcher tableau, with the decimal literals exactly as written

  const C2: real := 0.2
  const C3: real := 0.3
  const C4: real := 0.6
  const C5: real := 1.0
  const C6: real := 0.875
  const A21: real := 0.2
  const A31: real := 0.075
  const A32: real := 0.225
  const A41: real := 0.3
  const A42: real := -0.9
  const A43: real := 1.2
  const A51: real := -0.203703703703703703703
  const A52: real := 2.5
  const A53: real := -2.592592592592592592592
  const A54: real := 1.2962962962962962962962
  const A61: real := 0.0294958043981481481481
  const A62: real := 0.3141796875
  const A63: real := 0.0415943287037037037037
  const A64: real := 0.4003454137731481481481
  const A65: real := 0.061767578125
  const B11: real := 0.0978835978835978835978
  const B13: real := 0.4025764895330112721417
  const B14: real := 0.2104377104377104377104
  const B16: real := 0.2891022021456804065499
  const B21: real := 0.1021773726851851851851
  const B23: real := 0.3839079034391534391534
  const B24: real := 0.2445927372685185185185
  const B25: real := 0.0193219866071428571485
  const B26: real := 0.25

  /** The right-hand side dx/dt = df(x, t) of the system. */
  type ODEFunc = (seq<real>, real) -> seq<real>

  /** df maps every n-vector to an n-vector, so the stage loops stay in range. */
  ghost predicate KeepsDimension(df: ODEFunc, n: nat)
  {
    forall xs: seq<real>, s: real :: |xs| == n ==> |df(xs, s)| == n
  }

  // ---------------------------------------------------------------------------
  // The step, as a function of its inputs

  /** A stage vector multiplied by the step size, as the in-place `k[i] *= h` leaves it. */
  function Scaled(v: seq<real>, h: real): (r: seq<real>)
    ensures |r| == |v|
  {
    seq(|v|, i requires 0 <= i < |v| => v[i] * h)
  }

  /** The six scaled stage vectors k1 .. k6. */
  datatype Stages = Stages(k1: seq<real>, k2: seq<real>, k3: seq<real>, k4: seq<real>, k5: seq<real>, k6: seq<real>)

  ghost predicate StagesOfDimension(st: Stages, n: nat)
  {
    |st.k1| == n && |st.k2| == n && |st.k3| == n && |st.k4| == n && |st.k5| == n && |st.k6| == n
  }

  /** The input of stage 2: x0 + A21 k1. */
  function Input2(x0: seq<real>, k1: seq<real>): (r: seq<real>)
    requires |k1| == |x0|
    ensures |r| == |x0|
  {
    seq(|x0|, i requires 0 <= i < |x0| => x0[i] + A21 * k1[i])
  }

  /** The input of stage 3: x0 + A31 k1 + A32 k2. */
  function Input3(x0: seq<real>, k1: seq<real>, k2: seq<real>): (r: seq<real>)
    requires |k1| == |x0| && |k2| == |x0|
    ensures |r| == |x0|
  {
    seq(|x0|, i requires 0 <= i < |x0| => x0[i] + A31 * k1[i] + A32 * k2[i])
  }

  /** The input of stage 4: x0 + A41 k1 + A42 k2 + A43 k3. */
  function Input4(x0: seq<real>, k1: seq<real>, k2: seq<real>, k3: seq<real>): (r: seq<real>)
    requires |k1| == |x0| && |k2| == |x0| && |k3| == |x0|
    ensures |r| == |x0|
  {
    seq(|x0|, i requires 0 <= i < |x0| => x0[i] + A41 * k1[i] + A42 * k2[i] + A43 * k3[i])
  }

  /** The input of stage 5: x0 + A51 k1 + A52 k2 + A53 k3 + A54 k4. */
  function Input5(x0: seq<real>, k1: seq<real>, k2: seq<real>, k3: seq<real>, k4: seq<real>): (r: seq<real>)
    requires |k1| == |x0| && |k2| == |x0| && |k3| == |x0| && |k4| == |x0|
    ensures |r| == |x0|
  {
    seq(|x0|, i requires 0 <= i < |x0| => x0[i] + A51 * k1[i] + A52 * k2[i] + A53 * k3[i] + A54 * k4[i])
  }

  /** The input of stage 6: x0 + A61 k1 + A62 k2 + A63 k3 + A64 k4 + A65 k5. */
  function Input6(x0: seq<real>, k1: seq<real>, k2: seq<real>, k3: seq<real>, k4: seq<real>, k5: seq<real>): (r: seq<real>)
    requires |k1| == |x0| && |k2| == |x0| && |k3| == |x0| && |k4| == |x0| && |k5| == |x0|
    ensures |r| == |x0|
  {
    seq(|x0|, i requires 0 <= i < |x0| => x0[i] + A61 * k1[i] + A62 * k2[i] + A63 * k3[i] + A64 * k4[i] + A65 * k5[i])
  }

  /** Stage j evaluates df at time t + Cj h on its input and scales the result by h. */
  function StagesOf(df: ODEFunc, x0: seq<real>, t: real, h: real): (st: Stages)
    requires KeepsDimension(df, |x0|)
    ensures StagesOfDimension(st, |x0|)
  {
    var (k1, k2, k3) := FirstThree(df, x0, t, h);
    var (k4, k5, k6) := LastThree(df, x0, t, h, k1, k2, k3);
    Stages(k1, k2, k3, k4, k5, k6)
  }

  /** Stages 1 to 3. */
  function FirstThree(df: ODEFunc, x0: seq<real>, t: real, h: real): (r: (seq<real>, seq<real>, seq<real>))
    requires KeepsDimension(df, |x0|)
    ensures |r.0| == |r.1| == |r.2| == |x0|
  {
    var k1 := Scaled(df(x0, t), h);
    var k2 := Scaled(df(Input2(x0, k1), t + C2 * h), h);
    var k3 := Scaled(df(Input3(x0, k1, k2), t + C3 * h), h);
    (k1, k2, k3)
  }

  /** Stages 4 to 6, given stages 1 to 3. */
  function LastThree(df: ODEFunc, x0: seq<real>, t: real, h: real, k1: seq<real>, k2: seq<real>, k3: seq<real>)
    : (r: (seq<real>, seq<real>, seq<real>))
    requires KeepsDimension(df, |x0|) && |k1| == |k2| == |k3| == |x0|
    ensures |r.0| == |r.1| == |r.2| == |x0|
  {
    var k4 := Scaled(df(Input4(x0, k1, k2, k3), t + C4 * h), h);
    var k5 := Scaled(df(Input5(x0, k1, k2, k3, k4), t + C5 * h), h);
    var k6 := Scaled(df(Input6(x0, k1, k2, k3, k4, k5), t + C6 * h), h);
    (k4, k5, k6)
  }

  /** The comparison estimate est1 = x0 + B11 k1 + B13 k3 + B14 k4 + B16 k6 (no k2, no k5). */
  function Estimate1(x0: seq<real>, st: Stages): (r: seq<real>)
    requires StagesOfDimension(st, |x0|)
    ensures |r| == |x0|
  {
    seq(|x0|, i requires 0 <= i < |x0| => x0[i] + B11 * st.k1[i] + B13 * st.k3[i] + B14 * st.k4[i] + B16 * st.k6[i])
  }

  /** The returned estimate nxs = x0 + B21 k1 + B23 k3 + B24 k4 + B25 k5 + B26 k6 (no k2). */
  function Estimate2(x0: seq<real>, st: Stages): (r: seq<real>)
    requires StagesOfDimension(st, |x0|)
    ensures |r| == |x0|
  {
    seq(|x0|, i requires 0 <= i < |x0| => x0[i] + B21 * st.k1[i] + B23 * st.k3[i] + B24 * st.k4[i] + B25 * st.k5[i] + B26 * st.k6[i])
  }

  /** The componentwise absolute differences |u[i] - v[i]|. */
  function Gaps(u: seq<real>, v: seq<real>): (r: seq<real>)
    requires |u| == |v|
    ensures |r| == |u| && forall i :: 0 <= i < |r| ==> r[i] >= 0.0
  {
    seq(|u|, i requires 0 <= i < |u| => Abs(u[i] - v[i]))
  }

  /** CKRKStep's outcome: the embedded fourth-order solution and the mean absolute
      difference between the two estimates. */
  function Step(df: ODEFunc, x0: seq<real>, t: real, h: real): (r: (seq<real>, real))
    requires |x0| >= 1 && KeepsDimension(df, |x0|)
    ensures |r.0| == |x0|
  {
    Combined(x0, StagesOf(df, x0, t, h))
  }

  /** The embedded fourth-order solution of given stages, with the mean absolute
      difference from the comparison estimate. */
  function Combined(x0: seq<real>, st: Stages): (r: (seq<real>, real))
    requires |x0| >= 1 && StagesOfDimension(st, |x0|)
    ensures |r.0| == |x0|
  {
    (Estimate2(x0, st), Sum(Gaps(Estimate1(x0, st), Estimate2(x0, st))) / |x0| as real)
  }

  // ---------------------------------------------------------------------------
  // CKRKStep

  /** CKRKStep: each stage evaluates df on currX, scales the result in place by
      h and overwrites currX with the next stage's input; the last loop fills
      est1 and nxs and accumulates the absolute differences. */
  method CKRKStep(df: ODEFunc, x0: seq<real>, t: real, h: real) returns (nxs: seq<real>, err: real)
    requires |x0| >= 1 && KeepsDimension(df, |x0|)
    ensures (nxs, err) == Step(df, x0, t, h)
  {
    var st := AllStages(df, x0, t, h);
    nxs, err := Combine(x0, st);
  }

  /** The six stages, computed through the shared buffer currX. */
  method AllStages(df: ODEFunc, x0: seq<real>, t: real, h: real) returns (st: Stages)
    requires KeepsDimension(df, |x0|)
    ensures st == StagesOf(df, x0, t, h)
  {
    var currX := new real[|x0|];
    var k1, k2, k3 := FirstStages(df, x0, t, h, currX);
    var k4, k5, k6 := LastStages(df, x0, t, h, k1, k2, k3, currX);
    st := Stages(k1, k2, k3, k4, k5, k6);
  }

  /** Stages 1 to 3, leaving the input of stage 4 in currX. */
  method FirstStages(df: ODEFunc, x0: seq<real>, t: real, h: real, currX: array<real>)
    returns (k1: seq<real>, k2: seq<real>, k3: seq<real>)
    requires KeepsDimension(df, |x0|) && currX.Length == |x0|
    modifies currX
    ensures (k1, k2, k3) == FirstThree(df, x0, t, h)
    ensures currX[..] == Input4(x0, k1, k2, k3)
  {
    k1 := Stage1(df, x0, t, h, currX);
    k2 := Stage2(df, x0, t, h, k1, currX);
    k3 := Stage3(df, x0, t, h, k1, k2, currX);
  }

  /** Stages 4 to 6 from the input of stage 4 in currX. */
  method LastStages(df: ODEFunc, x0: seq<real>, t: real, h: real, k1: seq<real>, k2: seq<real>, k3: seq<real>,
                    currX: array<real>) returns (k4: seq<real>, k5: seq<real>, k6: seq<real>)
    requires KeepsDimension(df, |x0|) && |k1| == |k2| == |k3| == |x0|
    requires currX[..] == Input4(x0, k1, k2, k3)
    modifies currX
    ensures (k4, k5, k6) == LastThree(df, x0, t, h, k1, k2, k3)
  {
    k4 := Stage4(df, x0, t, h, k1, k2, k3, currX);
    k5 := Stage5(df, x0, t, h, k1, k2, k3, k4, currX);
    k6 := Stage6(df, x0, t, h, k1, k2, k3, k4, k5, currX);
  }

  /** Stage 1 (ode/ckrk.go:52-56): k1 = df(x0, t) scaled by h; currX becomes x0 + A21 k1. */
  method Stage1(df: ODEFunc, x0: seq<real>, t: real, h: real, currX: array<real>) returns (k1: seq<real>)
    requires KeepsDimension(df, |x0|) && currX.Length == |x0|
    modifies currX
    ensures k1 == Scaled(df(x0, t), h) && currX[..] == Input2(x0, k1)
  {
    var k := FromSeq(df(x0, t));
    ghost var K := Scaled(k[..], h);
    for i := 0 to |x0|
      invariant forall j :: 0 <= j < i ==> k[j] == K[j]
      invariant forall j :: i <= j < |x0| ==> k[j] == old(df(x0, t))[j]
      invariant forall j :: 0 <= j < i ==> currX[j] == Input2(x0, K)[j]
    {
      k[i] := k[i] * h;
      assert k[i] == K[i];
      currX[i] := x0[i] + A21 * k[i];
    }
    k1 := k[..];
  }

  /** Stage 2 (ode/ckrk.go:57-61): k2 = df(currX, t + C2 h) scaled by h; currX
      becomes x0 + A31 k1 + A32 k2. */
  method Stage2(df: ODEFunc, x0: seq<real>, t: real, h: real, k1: seq<real>, currX: array<real>) returns (k2: seq<real>)
    requires KeepsDimension(df, |x0|) && |k1| == |x0| && currX[..] == Input2(x0, k1)
    modifies currX
    ensures k2 == Scaled(df(Input2(x0, k1), t + C2 * h), h) && currX[..] == Input3(x0, k1, k2)
  {
    var k := FromSeq(df(currX[..], t + C2 * h));
    ghost var D, K := k[..], Scaled(k[..], h);
    for i := 0 to |x0|
      invariant forall j :: 0 <= j < i ==> k[j] == K[j]
      invariant forall j :: i <= j < |x0| ==> k[j] == D[j]
      invariant forall j :: 0 <= j < i ==> currX[j] == Input3(x0, k1, K)[j]
    {
      k[i] := k[i] * h;
      assert k[i] == K[i];
      currX[i] := x0[i] + A31 * k1[i] + A32 * k[i];
    }
    k2 := k[..];
  }

  /** Stage 3 (ode/ckrk.go:62-66): k3 = df(currX, t + C3 h) scaled by h; currX
      becomes x0 + A41 k1 + A42 k2 + A43 k3. */
  method Stage3(df: ODEFunc, x0: seq<real>, t: real, h: real, k1: seq<real>, k2: seq<real>, currX: array<real>)
    returns (k3: seq<real>)
    requires KeepsDimension(df, |x0|) && |k1| == |k2| == |x0| && currX[..] == Input3(x0, k1, k2)
    modifies currX
    ensures k3 == Scaled(df(Input3(x0, k1, k2), t + C3 * h), h) && currX[..] == Input4(x0, k1, k2, k3)
  {
    var k := FromSeq(df(currX[..], t + C3 * h));
    ghost var D, K := k[..], Scaled(k[..], h);
    for i := 0 to |x0|
      invariant forall j :: 0 <= j < i ==> k[j] == K[j]
      invariant forall j :: i <= j < |x0| ==> k[j] == D[j]
      invariant forall j :: 0 <= j < i ==> currX[j] == Input4(x0, k1, k2, K)[j]
    {
      k[i] := k[i] * h;
      assert k[i] == K[i];
      currX[i] := x0[i] + A41 * k1[i] + A42 * k2[i] + A43 * k[i];
    }
    k3 := k[..];
  }

  /** Stage 4 (ode/ckrk.go:67-71): k4 = df(currX, t + C4 h) scaled by h; currX
      becomes x0 + A51 k1 + A52 k2 + A53 k3 + A54 k4. */
  method Stage4(df: ODEFunc, x0: seq<real>, t: real, h: real, k1: seq<real>, k2: seq<real>, k3: seq<real>,
                currX: array<real>) returns (k4: seq<real>)
    requires KeepsDimension(df, |x0|) && |k1| == |k2| == |k3| == |x0| && currX[..] == Input4(x0, k1, k2, k3)
    modifies currX
    ensures k4 == Scaled(df(Input4(x0, k1, k2, k3), t + C4 * h), h) && currX[..] == Input5(x0, k1, k2, k3, k4)
  {
    var k := FromSeq(df(currX[..], t + C4 * h));
    ghost var D, K := k[..], Scaled(k[..], h);
    for i := 0 to |x0|
      invariant forall j :: 0 <= j < i ==> k[j] == K[j]
      invariant forall j :: i <= j < |x0| ==> k[j] == D[j]
      invariant forall j :: 0 <= j < i ==> currX[j] == Input5(x0, k1, k2, k3, K)[j]
    {
      k[i] := k[i] * h;
      assert k[i] == K[i];
      currX[i] := x0[i] + A51 * k1[i] + A52 * k2[i] + A53 * k3[i] + A54 * k[i];
    }
    k4 := k[..];
  }

  /** Stage 5 (ode/ckrk.go:72-76): k5 = df(currX, t + C5 h) scaled by h; currX
      becomes x0 + A61 k1 + A62 k2 + A63 k3 + A64 k4 + A65 k5. */
  method Stage5(df: ODEFunc, x0: seq<real>, t: real, h: real, k1: seq<real>, k2: seq<real>, k3: seq<real>,
                k4: seq<real>, currX: array<real>) returns (k5: seq<real>)
    requires KeepsDimension(df, |x0|) && |k1| == |k2| == |k3| == |k4| == |x0|
    requires currX[..] == Input5(x0, k1, k2, k3, k4)
    modifies currX
    ensures k5 == Scaled(df(Input5(x0, k1, k2, k3, k4), t + C5 * h), h)
    ensures currX[..] == Input6(x0, k1, k2, k3, k4, k5)
  {
    var k := FromSeq(df(currX[..], t + C5 * h));
    ghost var D, K := k[..], Scaled(k[..], h);
    for i := 0 to |x0|
      invariant forall j :: 0 <= j < i ==> k[j] == K[j]
      invariant forall j :: i <= j < |x0| ==> k[j] == D[j]
      invariant forall j :: 0 <= j < i ==> currX[j] == Input6(x0, k1, k2, k3, k4, K)[j]
    {
      k[i] := k[i] * h;
      assert k[i] == K[i];
      currX[i] := x0[i] + A61 * k1[i] + A62 * k2[i] + A63 * k3[i] + A64 * k4[i] + A65 * k[i];
    }
    k5 := k[..];
  }

  /** Stage 6 (ode/ckrk.go:77-80): k6 = df(currX, t + C6 h) scaled by h. */
  method Stage6(df: ODEFunc, x0: seq<real>, t: real, h: real, k1: seq<real>, k2: seq<real>, k3: seq<real>,
                k4: seq<real>, k5: seq<real>, currX: array<real>) returns (k6: seq<real>)
    requires KeepsDimension(df, |x0|) && |k1| == |k2| == |k3| == |k4| == |k5| == |x0|
    requires currX[..] == Input6(x0, k1, k2, k3, k4, k5)
    ensures k6 == Scaled(df(Input6(x0, k1, k2, k3, k4, k5), t + C6 * h), h)
  {
    var k := FromSeq(df(currX[..], t + C6 * h));
    ScaleStage(k, h);
    k6 := k[..];
  }

  /** A fresh array holding the elements of s, as df's returned slice. */
  method FromSeq(s: seq<real>) returns (a: array<real>)
    ensures fresh(a) && a[..] == s
  {
    a := new real[|s|](i requires 0 <= i < |s| => s[i]);
  }

  /** The in-place `k[i] *= h` of every stage loop. */
  method ScaleStage(k: array<real>, h: real)
    modifies k
    ensures k[..] == Scaled(old(k[..]), h)
  {
    for i := 0 to k.Length
      invariant forall j :: 0 <= j < i ==> k[j] == old(k[j]) * h
      invariant forall j :: i <= j < k.Length ==> k[j] == old(k[j])
    {
      k[i] := k[i] * h;
    }
    assert forall j :: 0 <= j < k.Length ==> k[..][j] == Scaled(old(k[..]), h)[j];
  }

  /** The last loop of CKRKStep: est1, nxs and the mean absolute difference. */
  method Combine(x0: seq<real>, st: Stages) returns (nxs: seq<real>, err: real)
    requires |x0| >= 1 && StagesOfDimension(st, |x0|)
    ensures nxs == Combined(x0, st).0 && err == Combined(x0, st).1
  {
    var n := |x0|;
    var est1 := new real[n];
    var next := new real[n];
    ghost var e1, e2 := Estimate1(x0, st), Estimate2(x0, st);
    ghost var gaps := Gaps(e1, e2);
    err := 0.0;
    for i := 0 to n
      invariant forall j :: 0 <= j < i ==> est1[j] == e1[j] && next[j] == e2[j]
      invariant err == Sum(gaps[..i])
    {
      est1[i] := x0[i] + B11 * st.k1[i] + B13 * st.k3[i] + B14 * st.k4[i] + B16 * st.k6[i];
      next[i] := x0[i] + B21 * st.k1[i] + B23 * st.k3[i] + B24 * st.k4[i] + B25 * st.k5[i] + B26 * st.k6[i];
      assert gaps[..i + 1][..i] == gaps[..i];
      err := err + Abs(est1[i] - next[i]);
    }
    assert gaps[..n] == gaps;
    err := err / n as real;
    nxs := next[..];
  }

  // ---------------------------------------------------------------------------
  // Properties of the step

  /** The reported error is a mean of absolute values, so never negative. */
  lemma StepErrorNonNegative(df: ODEFunc, x0: seq<real>, t: real, h: real)
    requires |x0| >= 1 && KeepsDimension(df, |x0|)
    ensures Step(df, x0, t, h).1 >= 0.0
  {
    var st := StagesOf(df, x0, t, h);
    SumNonNegZero(Gaps(Estimate1(x0, st), Estimate2(x0, st)));
  }

  /** A field that is zero everywhere leaves the state where it is, with zero error. */
  lemma ZeroFieldStep(df: ODEFunc, x0: seq<real>, t: real, h: real)
    requires |x0| >= 1 && KeepsDimension(df, |x0|)
    requires forall xs: seq<real>, s: real :: df(xs, s) == Const(0.0, |xs|)
    ensures Step(df, x0, t, h) == (x0, 0.0)
  {
    var zero := Const(0.0, |x0|);
    ScaledZero(|x0|, h);
    var st := StagesOf(df, x0, t, h);
    assert st == Stages(zero, zero, zero, zero, zero, zero);
    RestingEstimates(x0);
    GapsSelf(x0);
    SumConst(0.0, |x0|);
  }

  lemma ScaledZero(n: nat, h: real)
    ensures Scaled(Const(0.0, n), h) == Const(0.0, n)
  {
  }

  /** With every stage zero both estimates are x0. */
  lemma RestingEstimates(x0: seq<real>)
    ensures var zero := Const(0.0, |x0|);
      var st := Stages(zero, zero, zero, zero, zero, zero);
      Estimate1(x0, st) == x0 && Estimate2(x0, st) == x0
  {
  }

  lemma GapsSelf(u: seq<real>)
    ensures Gaps(u, u) == Const(0.0, |u|)
  {
    forall i | 0 <= i < |u|
      ensures Gaps(u, u)[i] == 0.0
    {
      assert Gaps(u, u)[i] == Abs(u[i] - u[i]);
    }
  }

  /** The test system dx/dt = 2 - y, dy/dt = 4 - x on 2-vectors. The test's
      function always builds a 2-vector and indexes xy[1]; the branch that
      returns other dimensions unchanged is this model's own addition, so that
      KeepsDimension holds for every n. */
  function GlobalODE(xy: seq<real>, t: real): (r: seq<real>)
    ensures |r| == |xy|
  {
    if |xy| == 2 then [2.0 - xy[1], 4.0 - xy[0]] else xy
  }

  /** The six stages of the test step, exactly. */
  lemma GlobalODEStages()
    ensures StagesOf(GlobalODE, [0.0, 0.0], 0.0, 0.01) == Stages(
      [0.02, 0.04],
      [0.01992, 0.03996],
      [0.01988009, 0.03994018],
      [0.01976035784, 0.03988071892],
      [0.01960099534733333333333285357295896, 0.03980199769466666666666642714647792],
      [0.019661797266164345703125040088298633042578125, 0.0398320305089171337890625201765119907205078125])
  {
    var x0 := [0.0, 0.0];
    var k1 := [0.02, 0.04];
    var k2 := [0.01992, 0.03996];
    var k3 := [0.01988009, 0.03994018];
    var k4 := [0.01976035784, 0.03988071892];
    var k5 := [0.01960099534733333333333285357295896, 0.03980199769466666666666642714647792];
    assert Scaled(GlobalODE(x0, 0.0), 0.01) == k1;
    assert Input2(x0, k1) == [0.004, 0.008];
    assert Scaled(GlobalODE([0.004, 0.008], 0.0 + C2 * 0.01), 0.01) == k2;
    assert Input3(x0, k1, k2) == [0.005982, 0.011991];
    assert Scaled(GlobalODE([0.005982, 0.011991], 0.0 + C3 * 0.01), 0.01) == k3;
    assert Input4(x0, k1, k2, k3) == [0.011928108, 0.023964216];
    assert Scaled(GlobalODE([0.011928108, 0.023964216], 0.0 + C4 * 0.01), 0.01) == k4;
    var x5 := [0.019800230533333333333357285352208, 0.039900465266666666666714642704104];
    assert Input5(x0, k1, k2, k3, k4) == x5;
    assert Scaled(GlobalODE(x5, 0.0 + C5 * 0.01), 0.01) == k5;
    var x6 := [0.01679694910828662109374798234880092794921875, 0.0338202733835654296874959911701366957421875];
    assert Input6(x0, k1, k2, k3, k4, k5) == x6;
  }

  /** One step of size 0.01 from (0, 0) at t = 0 lands within 1e-5 of
      (0.0198003, 0.0399007). */
  lemma GlobalODEStep()
    ensures var r := Step(GlobalODE, [0.0, 0.0], 0.0, 0.01);
      |r.0| == 2 && Abs(0.0198003 - r.0[0]) <= 0.00001 && Abs(0.0399007 - r.0[1]) <= 0.00001
  {
    GlobalODEStages();
  }

  // ---------------------------------------------------------------------------
  // Solve

  /** One integrator step: from a state, a time and a step size to the new
      state and its error estimate. */
  type Stepper = (seq<real>, real, real) -> (seq<real>, real)

  /** The Cash-Karp step as a total stepper: on states the field does not keep
      in dimension (where CKRKStep would index out of range) it stays put. */
  ghost function CashKarpStepper(fn: ODEFunc): Stepper
  {
    (x: seq<real>, s: real, h: real) => if |x| >= 1 && KeepsDimension(fn, |x|) then Step(fn, x, s, h) else (x, 0.0)
  }

  /** One iteration of Solve's main loop: take a step, compute the next step
      size with nextH, and accept the step only when |err| < globalerr, in
      which case t advances by the NEW step size and the state becomes the
      step's result. Returns the new state, time and step size. */
  function Advance(step: Stepper, out: seq<real>, t: real, h: real, globalerr: real,
                   nextH: (real, real) -> real): (seq<real>, real, real)
  {
    var (nxs, err) := step(out, t, h);
    var h' := nextH(h, err);
    if Abs(err) < globalerr then (nxs, t + h', h') else (out, t, h')
  }

  /** Solve's main loop from state out at time t with step h, for at most fuel
      iterations; it stops as soon as t reaches tfinal. */
  function SolveFrom(step: Stepper, out: seq<real>, t: real, h: real, tfinal: real, globalerr: real,
                     nextH: (real, real) -> real, fuel: nat): (seq<real>, real)
    decreases fuel
  {
    if fuel == 0 || t >= tfinal then (out, t)
    else
      var (out', t', h') := Advance(step, out, t, h, globalerr, nextH);
      SolveFrom(step, out', t', h', tfinal, globalerr, nextH, fuel - 1)
  }

  /** step agrees with the Cash-Karp step of fn on every n-vector. The trigger
      keeps the step's definition out of reach until a Step term is at hand. */
  ghost predicate RunsCashKarp(step: Stepper, fn: ODEFunc, n: nat)
  {
    n >= 1 && KeepsDimension(fn, n) &&
    forall x: seq<real>, s: real, h: real {:trigger Step(fn, x, s, h)} :: |x| == n ==> step(x, s, h) == Step(fn, x, s, h)
  }

  lemma CashKarpRuns(fn: ODEFunc, n: nat)
    requires n >= 1 && KeepsDimension(fn, n)
    ensures RunsCashKarp(CashKarpStepper(fn), fn, n)
  {
  }

  /** Solve: the result starts from the zero vector whatever x0 holds, and the
      reversed copy overwrites the caller's x0 with zeros. */
  method Solve(fn: ODEFunc, x0: array<real>, t0: real, tfinal: real, globalerr: real,
               nextH: (real, real) -> real, fuel: nat) returns (out: seq<real>, t: real)
    requires x0.Length >= 1 && KeepsDimension(fn, x0.Length)
    requires globalerr >= 0.0 && tfinal >= t0
    modifies x0
    ensures x0[..] == Const(0.0, x0.Length)
    ensures (out, t) == SolveFrom(CashKarpStepper(fn), Const(0.0, x0.Length), t0, 0.01, tfinal, globalerr, nextH, fuel)
  {
    out := Const(0.0, x0.Length);
    Copy(x0, out);
    CashKarpRuns(fn, x0.Length);
    out, t := MainLoop(fn, CashKarpStepper(fn), out, t0, globalerr, tfinal, nextH, fuel);
  }

  /** Solve's main loop from state x at time t0 with the initial step 0.01,
      for at most fuel iterations. */
  method MainLoop(fn: ODEFunc, ghost step: Stepper, x: seq<real>, t0: real, globalerr: real, tfinal: real,
                  nextH: (real, real) -> real, fuel: nat) returns (out: seq<real>, t: real)
    requires RunsCashKarp(step, fn, |x|)
    ensures (out, t) == SolveFrom(step, x, t0, 0.01, tfinal, globalerr, nextH, fuel)
  {
    out, t := x, t0;
    var h := 0.01;
    var left := fuel;
    while left > 0 && t < tfinal
      invariant |out| == |x|
      invariant SolveFrom(step, out, t, h, tfinal, globalerr, nextH, left) == SolveFrom(step, x, t0, 0.01, tfinal, globalerr, nextH, fuel)
    {
      out, t, h := SolveIteration(fn, step, out, t, h, globalerr, nextH);
      left := left - 1;
    }
  }

  /** The body of Solve's main loop. */
  method SolveIteration(fn: ODEFunc, ghost step: Stepper, out: seq<real>, t: real, h: real, globalerr: real,
                        nextH: (real, real) -> real) returns (out': seq<real>, t': real, h': real)
    requires RunsCashKarp(step, fn, |out|)
    ensures (out', t', h') == Advance(step, out, t, h, globalerr, nextH)
    ensures |out'| == |out|
  {
    var thisf, thiserr := CKRKStep(fn, out, t, h);
    out', t', h' := out, t, nextH(h, thiserr);
    if Abs(thiserr) < globalerr {
      t' := t + h';
      out' := thisf;
    }
  }

  // ---------------------------------------------------------------------------
  // Properties of Solve

  /** With globalerr = 0 no step is ever accepted (|err| < 0 never holds):
      neither the state nor the time moves. */
  lemma {:induction false} ZeroToleranceStalls(step: Stepper, out: seq<real>, t: real, h: real, tfinal: real,
                                               nextH: (real, real) -> real, fuel: nat)
    ensures SolveFrom(step, out, t, h, tfinal, 0.0, nextH, fuel) == (out, t)
    decreases fuel
  {
    if fuel > 0 && t < tfinal {
      var (_, _, h') := Advance(step, out, t, h, 0.0, nextH);
      ZeroToleranceStalls(step, out, t, h', tfinal, nextH, fuel - 1);
    }
  }

  /** With a positive step-size rule the time never goes back, and a run that
      ends where it started accepted no step, so the state is unchanged. */
  lemma {:induction false} SolveMonotone(step: Stepper, out: seq<real>, t: real, h: real, tfinal: real, globalerr: real,
                                         nextH: (real, real) -> real, fuel: nat)
    requires forall h0: real, e: real :: nextH(h0, e) > 0.0
    ensures var r := SolveFrom(step, out, t, h, tfinal, globalerr, nextH, fuel);
      r.1 >= t && (r.1 == t ==> r.0 == out)
    decreases fuel
  {
    if fuel > 0 && t < tfinal {
      var (out', t', h') := Advance(step, out, t, h, globalerr, nextH);
      SolveMonotone(step, out', t', h', tfinal, globalerr, nextH, fuel - 1);
    }
  }

  /** A stepper that keeps the dimension of the state makes Solve keep it too. */
  lemma {:induction false} SolveKeepsDimension(step: Stepper, out: seq<real>, t: real, h: real, tfinal: real,
                                               globalerr: real, nextH: (real, real) -> real, fuel: nat)
    requires forall x: seq<real>, s: real, h0: real :: |step(x, s, h0).0| == |x|
    ensures |SolveFrom(step, out, t, h, tfinal, globalerr, nextH, fuel).0| == |out|
    decreases fuel
  {
    if fuel > 0 && t < tfinal {
      var (out', t', h') := Advance(step, out, t, h, globalerr, nextH);
      SolveKeepsDimension(step, out', t', h', tfinal, globalerr, nextH, fuel - 1);
    }
  }

  /** A stepper that never moves the state with zero error, under a positive
      tolerance: every step is accepted and the state stays where it is. */
  lemma {:induction false} StillStepperSolve(step: Stepper, out: seq<real>, t: real, h: real, tfinal: real,
                                             globalerr: real, nextH: (real, real) -> real, fuel: nat)
    requires forall x: seq<real>, s: real, h0: real :: step(x, s, h0) == (x, 0.0)
    requires globalerr > 0.0
    ensures SolveFrom(step, out, t, h, tfinal, globalerr, nextH, fuel).0 == out
    decreases fuel
  {
    if fuel > 0 && t < tfinal {
      StillStepperSolve(step, out, t + nextH(h, 0.0), nextH(h, 0.0), tfinal, globalerr, nextH, fuel - 1);
    }
  }

  /** The Cash-Karp stepper keeps the dimension of the state. */
  lemma CashKarpKeepsDimension(fn: ODEFunc)
    ensures forall x: seq<real>, s: real, h: real :: |CashKarpStepper(fn)(x, s, h).0| == |x|
  {
  }

  /** Under a field that is zero everywhere and a positive tolerance, every
      step is accepted and the solution stays at its initial state. */
  lemma ZeroFieldSolve(fn: ODEFunc, x: seq<real>, t0: real, tfinal: real, globalerr: real,
                       nextH: (real, real) -> real, fuel: nat)
    requires forall xs: seq<real>, s: real :: fn(xs, s) == Const(0.0, |xs|)
    requires globalerr > 0.0
    ensures SolveFrom(CashKarpStepper(fn), x, t0, 0.01, tfinal, globalerr, nextH, fuel).0 == x
  {
    var step := CashKarpStepper(fn);
    forall y: seq<real>, s: real, h: real
      ensures step(y, s, h) == (y, 0.0)
    {
      if |y| >= 1 && KeepsDimension(fn, |y|) {
        ZeroFieldStep(fn, y, s, h);
      }
    }
    StillStepperSolve(step, x, t0, 0.01, tfinal, globalerr, nextH, fuel);
  }

  /** Solve as written loses the initial state: under the zero field the
      solution from x0 = [1] is [1], but Solve starts from [0] and returns [0]. */
  lemma SolveDiscardsStart(fn: ODEFunc, t0: real, tfinal: real, globalerr: real,
                           nextH: (real, real) -> real, fuel: nat)
    requires forall xs: seq<real>, s: real :: fn(xs, s) == Const(0.0, |xs|)
    requires globalerr > 0.0
    ensures SolveFrom(CashKarpStepper(fn), Const(0.0, 1), t0, 0.01, tfinal, globalerr, nextH, fuel).0 == [0.0]
    ensures SolveFrom(CashKarpStepper(fn), [1.0], t0, 0.01, tfinal, globalerr, nextH, fuel).0 == [1.0]
  {
    ZeroFieldSolve(fn, Const(0.0, 1), t0, tfinal, globalerr, nextH, fuel);
    ZeroFieldSolve(fn, [1.0], t0, tfinal, globalerr, nextH, fuel);
  }

  /** Solve with the copy the right way round: the caller's x0 is left alone
      and the integration starts from it. */
  method SolveCorrected(fn: ODEFunc, x0: array<real>, t0: real, tfinal: real, globalerr: real,
                        nextH: (real, real) -> real, fuel: nat) returns (out: seq<real>, t: real)
    requires x0.Length >= 1 && KeepsDimension(fn, x0.Length)
    requires globalerr >= 0.0 && tfinal >= t0
    ensures (out, t) == SolveFrom(CashKarpStepper(fn), x0[..], t0, 0.01, tfinal, globalerr, nextH, fuel)
  {
    var buf := new real[x0.Length];
    Copy(buf, x0[..]);
    CashKarpRuns(fn, x0.Length);
    out, t := MainLoop(fn, CashKarpStepper(fn), buf[..], t0, globalerr, tfinal, nextH, fuel);
  }
}
