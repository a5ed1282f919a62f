# vec numerical core, modelled in Dafny

This project models the numerical core of the Go package `vec` (philhofer/vec)
over exact real arithmetic: every `float64` is a Dafny `real`. Covered are:

- the natural cubic spline: `Arange`, the right-hand side `3·Δy`, the in-place
  Thomas solve `getCubicSplinCoeffs`, and the Hermite evaluators `F`, `DF` and `DDF`;
- Romberg quadrature: the trapezoid rule `trap` and the Richardson table of `Integral`;
- the Cash-Karp embedded Runge-Kutta step `CKRKStep` and the accept/reject loop of `Solve`;
- the left fold `Fold` and `VectorField.Val`;
- the statistics helpers `Mean`, `Variance`, `Covariance`, `Which`, `ECDF` and `Median`;
- the straight-line fit: `Eval`, `elements`, `resample`, `SumSquares`, `DemingReg` and `LinFit`;
- the early returns of `WelchTtest` and `KSTest2`, and the Kolmogorov-Smirnov distance `D`.

There is one module per Go file, plus three shared modules:

| module | Go file | form |
|---|---|---|
| `Interp` | interpLib.go | array methods for `Arange`, `makeConstVec` and the Thomas solve; functions for the evaluators |
| `Romberg` | romberg.go | methods over arrays, each proved against a table function |
| `CashKarp` | ode/ckrk.go | stage methods over the shared `currX` buffer, proved against `Step`; the `Solve` loop is proved against `SolveFrom` |
| `MathTypes` | mathtypes.go | the `Fold` loop, proved against `FoldLeft` |
| `StatFuncs` | stat/mathfuncs.go | loop methods proved against `MeanOf`, `VarianceOf`, `CovarianceOf` and `Filter`; `Median` works in place on an array |
| `LinFit` | stat/linfit.go | loop methods, plus the `LinearFit` datatype |
| `StatOps` | stat/statops.go | `KSTest2` pools and sorts in a fresh array and then scans it |
| `RealSeqs` | (shared) | `Sum`, `Const`, and Go's `copy` on equal-length slices |
| `Sorting` | (shared) | `sort.Float64sAreSorted`, and `sort.Float64s` as an in-place insertion sort |
| `Wrappers` | (shared) | `Option` |

Conventions:

- An index out of range or an explicit `panic` in Go becomes a `requires`.
- A NaN result on a guarded path (`SumSquares` on mismatched lengths) becomes `None`.
- Calls into code outside the model are parameters:
  - the slope formula of `DemingReg` with its square root;
  - the remaining Welch statistics, including the Student t distribution;
  - `QKS`;
  - the step-size rule of `Solve`;
  - the random indices of `resample`.

## Model

| member | source | states |
|---|---|---|
| Interp.Arange | interpLib.go:4-11 | A fresh array holding the N samples `start + i·h` with `h = (stop − start)/N`. |
| Interp.ArangeShape | interpLib_test.go:29-51 | Arange has exactly N elements and is empty for N = 0. Its first element is `start`, its last is `stop − h`, and consecutive elements are h apart. |
| Interp.MakeConstVec | interpLib.go:78-85 | A fresh array of N copies of `a`. |
| Interp.Pivot | interpLib.go:106-110 | Every forward-sweep pivot `b[i] − a[i]·c[i−1]` is at least 3/2, and at least 2 off the last row, so no division by zero occurs. |
| Interp.SuperBounds | interpLib.go:102-110 | Every normalised super-diagonal entry `c[i]`, i < l−1, lies in (0, 1/2]. |
| Interp.ForwardStep | interpLib.go:102-110 | Each pivot times its normalised super-diagonal entry is 1, and times its eliminated right-hand side gives the row's right-hand side minus the previous eliminated value. |
| Interp.SweepSolves | interpLib.go:106-115 | Back substitution over a valid forward sweep satisfies every row of the tridiagonal system. |
| Interp.ThomasSolves | interpLib.go:88-117 | The Thomas result solves `2x0+x1=d0`, `x_{i−1}+4x_i+x_{i+1}=d_i`, `x_{l−2}+2x_{l−1}=d_{l−1}`. |
| Interp.ThomasUnique | interpLib.go:88-117 | Any vector that solves the system is the Thomas result: the system has exactly one solution. |
| Interp.GetCubicSplineCoeffs | interpLib.go:88-117 | After the in-place solve, x keeps its length and solves the system whose right-hand side it held on entry. The a/b/c buffers are local. |
| Interp.ForwardSweep | interpLib.go:102-110 | The normalisation and elimination loop leave the eliminated right-hand side in x and the normalised super-diagonal in c. |
| Interp.BackSubstitute | interpLib.go:113-115 | The descending loop leaves the back-substituted solution in x. |
| Interp.CubicSpline | interpLib.go:20-34 | The spline keeps its data. Its coefficients solve the tridiagonal system whose right-hand side is `3(y1−y0)`, `3(y_{i+1}−y_{i−1})`, `3(y_{N−1}−y_{N−2})`. |
| Interp.NaturalRow | interpLib.go:22-28 | Row k of that system holds iff the curvature condition at sample k holds: zero curvature at an end sample, equal curvature of the two segments meeting at an interior sample. |
| Interp.NaturalIffSolves | interpLib.go:20-31 | The tangents solve CubicSpline's system iff the piecewise Hermite cubic is natural and curvature-continuous. |
| Interp.FindXBounds | interpLib_test.go:77-85 | The bracket (i, i+1) always lies in range, as interpLib.go:41 needs for `coeffs[i+1]`. At or beyond the last sample it is the last segment, and at or before the first sample the first, as the test expects. The interior rule x_i ≤ x < x_{i+1} is the model's own assumption (see Left out). |
| Interp.KnotSegment | interpLib.go:38 | At sample k the bracket starts at k, or at k−1 for the last sample. |
| Interp.F | interpLib.go:37-48 | The value at x is the cubic Hermite interpolant of the bracketing segment (y_i, D_i, y_{i+1}, D_{i+1} in Lagrange form) at the unclamped `t = (x − x_i)/(x_{i+1} − x_i)`; it meets the samples (FAtKnots) and joins continuously (Continuity, Extrapolation). |
| Interp.DF | interpLib.go:51-63 | The derivative at x is the t-derivative of that Hermite interpolant divided by the segment width; at the samples it is the stored tangent over the width (DFAtKnots). |
| Interp.DDF | interpLib.go:65-76 | The second derivative at x is the second t-derivative of that Hermite interpolant, `2c + 6dt`, divided twice by the width; the spline conditions in terms of DDF are StartInX, EndInX, JoinInX and NaturalSplineInX. |
| Interp.FAtKnots | interpLib.go:37-48 | F reproduces every sample: `F(x_k) = y_k`. |
| Interp.DFAtKnots | interpLib.go:51-63 | DF at a sample is its stored tangent over the segment width. On equally spaced samples `coeffs[k] = DF(x_k)·h`, as in interpLib_test.go:109. |
| Interp.ParamAtEnds | interpLib.go:39 | The segment parameter t is 0 at the segment's left sample and 1 at its right sample. |
| Interp.HermiteEnds | interpLib.go:42-47 | The segment cubic has values y_i, y_{i+1} and t-slopes D_i, D_{i+1} at t = 0 and t = 1. |
| Interp.Continuity | interpLib.go:37-63 | Neighbouring segments agree in value at their shared sample. On equal widths they also agree in first derivative. |
| Interp.StartInX | interpLib.go:65-76 | The curvature condition at the first sample holds iff `DDF(x_0) = 0`. |
| Interp.EndInX | interpLib.go:65-76 | The curvature condition at the last sample holds iff `DDF(x_{N−1}) = 0`. |
| Interp.JoinInX | interpLib.go:65-76 | On equal widths, the interior curvature condition at x_k holds iff the two segments' DDF values agree there. |
| Interp.NaturalSplineInX | interpLib.go:65-76 | On equally spaced samples the coefficients solve the system iff DDF vanishes at both ends and the segments' second derivatives agree at every interior sample. |
| Interp.Extrapolation | interpLib.go:38-39 | t is not clamped. Beyond the last sample F evaluates the last segment's cubic at t > 1; before the first sample, the first segment's cubic at t < 0. |
| Romberg.PPmap | romberg.go:13 | Every element is replaced by f of its old value. |
| Romberg.PanelSumNodes | romberg.go:14-16 | The panel sum counts both end nodes once and every interior node twice. |
| Romberg.TrapComposite | romberg.go:6-18 | For every N ≥ 1, the one-panel case included, trap is the composite rule `h·(f(a)/2 + Σ_{0<i<N} f(a+ih) + f(b)/2)`. |
| Romberg.ExtendedArangeNodes | romberg.go:11-12 | `Arange(a, b+h, N+1)` samples exactly the nodes `a + i·h`, i = 0..N. |
| Romberg.Trap | romberg.go:6-18 | N ≤ 0 returns the lower bound a. Every N ≥ 1 returns the composite trapezoid rule. |
| Romberg.SumPanels | romberg.go:14-16 | The accumulation loop sums `f(x_i) + f(x_{i+1})` over the N panels. |
| Romberg.TrapezoidRow | romberg.go:44-47 | Row 0 holds the trapezoid estimates with 2^i panels, i < K = 10. |
| Romberg.RichardsonRow | romberg.go:48-53 | Row k holds `(4^k·Ip[i+1] − Ip[i])/(4^k − 1)` from the previous row, one entry fewer. |
| Romberg.ExtrapolateRows | romberg.go:41-65 | The loop over rows 1..K−1 returns the outcome of scanning the table for the first converged row. |
| Romberg.Integral | romberg.go:27-68 | Integral returns exactly the Romberg outcome of the table for f on [a, b]. |
| Romberg.ScanMeaning | romberg.go:56-62 | The scan reports convergence only at the first row whose last entry lies within 1e-16 of the previous row's. Otherwise it returns (0, false). |
| Romberg.RombergMeaning | romberg.go:27-68 | a == b gives (0, false). Convergence means the value is the last entry of the first converged row k ≥ 1. No convergence gives 0, because of the shadowed `out` at line 56. |
| Romberg.ExtrapolateConstant | romberg.go:52 | Extrapolating two equal estimates returns that estimate. |
| Romberg.RichardsonKeepsConstant | romberg.go:48-53 | A constant row stays constant under a Richardson step. |
| Romberg.TrapSquare | romberg_test.go:9-16 | trap(x², 0, 3, N) overshoots 9 by exactly 4.5/N². |
| Romberg.SquareRow0 | romberg.go:44-47 | For x² on [0, 3], row 0 entry i is `9 + 4.5/4^i`. |
| Romberg.RichardsonOfErrors | romberg.go:48-53 | A first-order Richardson step removes an error term e/4^i exactly. |
| Romberg.SquareRow1 | romberg.go:48-53 | For x² on [0, 3], every entry of row 1 is exactly 9. |
| Romberg.RombergSquare | romberg_test.go:18-25 | Integral(x², 0, 3) converges with value 9. |
| CashKarp.CKRKStep | ode/ckrk.go:50-91 | The step equals the Cash-Karp step of df: `len(x0)` components, the embedded fourth-order solution nxs (B21..B26), and as error the mean absolute difference from the fifth-order comparison est1 (B11..B16). |
| CashKarp.AllStages | ode/ckrk.go:51-80 | The six stages evaluate df at t, t+0.2h, t+0.3h, t+0.6h, t+h and t+0.875h. Each input is x0 plus the A-weighted earlier stages, each already scaled by h. |
| CashKarp.FirstStages | ode/ckrk.go:52-66 | Stages 1 to 3, leaving the input of stage 4 in currX. |
| CashKarp.LastStages | ode/ckrk.go:67-80 | Stages 4 to 6 from the stage-4 input in currX. |
| CashKarp.Stage1 | ode/ckrk.go:52-56 | `k1 = h·df(x0, t)`; currX becomes `x0 + A21·k1`. |
| CashKarp.Stage2 | ode/ckrk.go:57-61 | `k2 = h·df(currX, t + 0.2h)`; currX becomes the stage-3 input. |
| CashKarp.Stage3 | ode/ckrk.go:62-66 | `k3 = h·df(currX, t + 0.3h)`; currX becomes the stage-4 input. |
| CashKarp.Stage4 | ode/ckrk.go:67-71 | `k4 = h·df(currX, t + 0.6h)`; currX becomes the stage-5 input. |
| CashKarp.Stage5 | ode/ckrk.go:72-76 | `k5 = h·df(currX, t + h)`; currX becomes the stage-6 input. |
| CashKarp.Stage6 | ode/ckrk.go:77-80 | `k6 = h·df(currX, t + 0.875h)`. |
| CashKarp.Combine | ode/ckrk.go:81-89 | `nxs = x0 + B21k1 + B23k3 + B24k4 + B25k5 + B26k6`; `est1` uses B11, B13, B14 and B16 only; err is the sum of the absolute differences of est1 and nxs over `len(x0)`. |
| CashKarp.StepErrorNonNegative | ode/ckrk.go:83-89 | The step error is never negative. |
| CashKarp.ZeroFieldStep | ode/ckrk.go:50-90 | A field that is zero everywhere gives `nxs = x0` and `err = 0`. |
| CashKarp.GlobalODEStages | ode/ckrk_test.go:8-19 | The exact six stages of the test system dx/dt = 2−y, dy/dt = 4−x from (0, 0), h = 0.01. |
| CashKarp.GlobalODEStep | ode/ckrk_test.go:17-30 | That step lands within 1e-5 of (0.0198003, 0.0399007). |
| CashKarp.Solve | ode/ckrk.go:93-111 | The reversed copy overwrites x0 with zeros. The run starts from the zero vector with h = 0.01 and follows the accept/reject loop. |
| CashKarp.MainLoop | ode/ckrk.go:102-109 | The loop runs while t < tfinal and equals the recursive accept/reject run. |
| CashKarp.SolveIteration | ode/ckrk.go:103-108 | The step is accepted only if the absolute error is below globalerr. Then t advances by the NEW step size and the state becomes nxs; otherwise only h changes. |
| CashKarp.ZeroToleranceStalls | ode/ckrk.go:105 | With globalerr = 0 no step is ever accepted: state and time stay put. |
| CashKarp.SolveMonotone | ode/ckrk.go:102-109 | With a positive step-size rule, time never goes back. A run that ends at its start time leaves the state unchanged. |
| CashKarp.SolveKeepsDimension | ode/ckrk.go:102-109 | A dimension-keeping stepper keeps the dimension of the solution. |
| CashKarp.StillStepperSolve | ode/ckrk.go:102-109 | A stepper that never moves and reports zero error leaves the state unchanged. |
| CashKarp.CashKarpKeepsDimension | ode/ckrk.go:81-82 | The Cash-Karp step keeps the dimension of the state. |
| CashKarp.ZeroFieldSolve | ode/ckrk.go:93-111 | Under the zero field and a positive tolerance, the solution stays at its initial state. |
| CashKarp.SolveDiscardsStart | ode/ckrk.go:94-95 | Under the zero field, Solve as written returns [0] from x0 = [1], while the solution from [1] is [1]. |
| CashKarp.SolveCorrected | ode/ckrk.go:93-111 | With the copy the right way round: x0 is left alone and the run starts from x0. |
| RealSeqs.Copy | ode/ckrk.go:95 | Go's `copy(dst, src)` on equal lengths: dst ends up equal to src. |
| MathTypes.Fold | mathtypes.go:70-81 | On a non-empty vector Fold is the left fold: a single element is returned as is, and f is applied once per further element. |
| MathTypes.FoldSnoc | mathtypes.go:74-78 | Folding v ++ [x] applies f once more to the fold of v. |
| MathTypes.FoldAddIsSum | mathtypes.go:70-81 | Folding addition sums the vector. |
| MathTypes.FoldAddMult | mathtypes_test.go:43-53 | Fold(add, [1,2,3,4]) = 10 and Fold(mult, [1,2,3,4]) = 24. |
| MathTypes.VectorField.Val | mathtypes.go:100-104 | Val returns exactly `rule(pts)`; the preallocated slice is discarded. |
| Sorting.AreSorted | stat/mathfuncs.go:208 | True iff no element is smaller than its predecessor. |
| Sorting.SortFloats | stat/mathfuncs.go:211 | The array ends up sorted and holds the same multiset of elements. |
| Sorting.ZerosStayZeros | stat/mathfuncs.go:209-211 | A rearrangement of n zeros is n zeros. |
| StatFuncs.Mean | stat/mathfuncs.go:129-138 | A one-element vector gives its element; otherwise sum/len. |
| StatFuncs.MeanBounds | stat/mathfuncs.go:129-138 | The mean lies between any lower and upper bound of the elements. |
| StatFuncs.MeanConst | stat/mathfuncs.go:129-138 | The mean of n copies of v is v. |
| StatFuncs.Variance | stat/mathfuncs.go:140-151 | 0 for at most one element; otherwise `Σ(x − mean)²/(n − 1)`. |
| StatFuncs.VarianceNonNegative | stat/mathfuncs.go:140-151 | The variance is never negative. |
| StatFuncs.VarianceConst | stat/mathfuncs.go:140-151 | A constant vector has variance 0. |
| StatFuncs.Covariance | stat/mathfuncs.go:157-169 | 0 on a length mismatch; otherwise the mean, over N, of `(x_i − x̄)(y_i − ȳ)`. |
| StatFuncs.CovarianceSelf | stat/mathfuncs.go:157-169 | `N·Cov(x, x) = (N − 1)·Var(x)`. |
| StatFuncs.CovarianceSymmetric | stat/mathfuncs.go:157-169 | `Cov(x, y) = Cov(y, x)`, mismatch case included. |
| StatFuncs.Which | stat/mathfuncs.go:195-203 | The appending loop returns the filter of arr by cond. |
| StatFuncs.FilterMembers | stat/mathfuncs.go:195-203 | x is in the result iff x is in arr and satisfies cond. |
| StatFuncs.FilterIsSubsequence | stat/mathfuncs.go:195-203 | The result is a subsequence of arr: original order is kept. |
| StatFuncs.FilterCountMonotone | stat/mathfuncs.go:195-203 | A weaker condition keeps at least as many elements. |
| StatFuncs.FilterKeepsAll | stat/mathfuncs.go:195-203 | A condition every element meets keeps arr as it is. |
| StatFuncs.FilterKeepsNone | stat/mathfuncs.go:195-203 | A condition no element meets gives the empty slice. |
| StatFuncs.ECDF | stat/mathfuncs.go:223-239 | ECDF(arr)(x) is the number of positions of arr whose element is strictly below x, divided by len(arr); its bounds, monotonicity and limits are ECDFBounds, ECDFMonotone, ECDFBelowMin and ECDFAboveMax. |
| StatFuncs.ECDFBounds | stat/mathfuncs.go:223-239 | The ECDF lies in [0, 1]. |
| StatFuncs.ECDFMonotone | stat/mathfuncs.go:223-239 | The ECDF never decreases in x. |
| StatFuncs.ECDFBelowMin | stat/mathfuncs.go:223-239 | At or below the minimum the ECDF is 0 (the count is strict). |
| StatFuncs.ECDFAboveMax | stat/mathfuncs.go:223-239 | Above the maximum the ECDF is 1. |
| StatFuncs.Median | stat/mathfuncs.go:205-221 | As written: sorted input is read in place at the indices of lines 215-219. Unsorted input has the caller's array overwritten with zeros and yields 0. |
| StatFuncs.MedianPickOffByOne | stat/mathfuncs.go:215-220 | On [1,2,3] Median reads 3, and on [1,2,3,4] it reads 3.5. |
| StatFuncs.MiddleSplits | stat/mathfuncs.go:205-221 | The intended middle of a sorted vector has its first half at or below it and its second half at or above it. |
| StatFuncs.MedianCorrected | stat/mathfuncs.go:205-221 | Corrected median: it returns the sorted working copy, a sorted rearrangement of the data, and the middle of that copy. The caller's array is untouched. |
| LinFit.LinearFit.Eval | stat/linfit.go:16-18 | At x = 0 the value is Intercept, and elsewhere the rise over Intercept per unit of x is Slope, which determines `Slope·x + Intercept`; EvalIsLine states the slope between any two points. |
| LinFit.EvalIsLine | stat/linfit.go:16-18 | Eval is the line through (0, Intercept) with slope Slope. |
| LinFit.Elements | stat/linfit.go:44-50 | `len(idx)` entries with `out[i] = arr[idx[i]]`; every index must be in range. |
| LinFit.Resample | stat/linfit.go:35-42 | One index list of `len(xs)` draws in [0, len(xs)) gathers both xs and ys, so pairs stay aligned. |
| LinFit.SumSquares | stat/linfit.go:52-63 | None (NaN) on a length mismatch. Otherwise the sum of the squared residuals `(y_i − Eval(x_i))²`. |
| LinFit.SumSquaresZero | stat/linfit.go:56-62 | The residual sum of squares is never negative, and it is 0 when every point lies on the line. |
| LinFit.DemingReg | stat/linfit.go:81-101 | nil (None) when the lengths differ. Otherwise the Deming fit from the `(n−1)`-normalised moments and the intercept `ȳ − b·x̄`. |
| LinFit.Moments | stat/linfit.go:92-96 | The loop accumulates the three sums of products of deviations from the means. |
| LinFit.DemingThroughCentroid | stat/linfit.go:99 | Whatever the slope, the fitted line passes through (x̄, ȳ). |
| LinFit.LinFit | stat/linfit.go:71-73 | LinFit is DemingReg with delta = 1. |
| StatOps.TermsOf | stat/statops.go:16-19 | The squared standard errors `Variance/n` are never negative. |
| StatOps.WelchTtest | stat/statops.go:10-29 | Either sample with ≤ 1 element gives (1, 0). Otherwise the result is the rest of the test applied to the two means and squared standard errors. |
| StatOps.Pooled | stat/statops.go:52-54 | The pooled slice has length 2(len(A)+len(B)): len(A)+len(B) zeros, then A, then B. |
| StatOps.GapBounds | stat/statops.go:57 | The distance between the two ECDFs at any x lies in [0, 1]. |
| StatOps.EffectiveSizeBounds | stat/statops.go:49 | With two or more points per sample, the integer-division `Ne` is at least 1 and below both sample sizes. |
| StatOps.KSTest2 | stat/statops.go:43-63 | Either sample with ≤ 1 element gives (1, 0). Otherwise D is the largest ECDF distance over the pooled points, and p is QKS of D and Ne. |
| StatOps.SortedPoints | stat/statops.go:52-55 | A fresh sorted array holding exactly the pooled points. |
| StatOps.LargestGap | stat/statops.go:56-60 | D starts at 0 and ends at least every gap over the points, and equal to one of them unless it is 0. |
| StatOps.ScanCoversPooled | stat/statops.go:55-60 | Scanning a sorted rearrangement finds the same largest gap as the pooled points. |
| StatOps.MaxGapBounds | stat/statops.go:56-60 | D lies in [0, 1]. |
| StatOps.MaxGapUnique | stat/statops.go:56-60 | D is determined by the two samples and the points. |
| StatOps.PaddingHarmless | stat/statops.go:52-60 | The leading zeros do not change D: the largest gap over the pooled points is the largest gap over A and B alone. |
| StatOps.GapAttained | stat/statops.go:56-60 | Every gap is 0 or equals the gap at one of the sample points. |

## Left out

- Floating-point rounding, NaN and ±Inf: arithmetic is exact over `real`.
  - The tolerance checks of the tests (1e-4, 1e-5) become exact identities or bounds.
  - The NaN/Inf branches of `Integral` (romberg.go:32-38) are not modelled; the infinite-bound branch is empty in the source.
- Concurrency: `MPmap`, the semaphore, and the goroutine wrappers `MakeFtMathop`/`MakeFtBiMathop`/`MakeFtLinop`. The source of `PPmap` is not part of this model; it is modelled as a sequential in-place map.
- Special functions: `Beta`, `IncBeta`, `G`, `P`, `IncGamma`, `CompGamma`, `StDev`, `Skewness`, `Kurtosis` (stat/mathfuncs.go), and `Ttest`, `StudentTDist` and `QKS`. They rest on `Lgamma`, `Exp`, `Pow` and `Sqrt`.
- Whole files not part of this model: stat/dists.go, stat/1dgmm.go, stat/numgen.go and dataops.go. `MakeBiVariateData` and the spline `Integral` are not part of this model either.
- The source of `findXBounds` is not part of this model. Interp.FindXBounds is the bracket that interpLib_test.go:77-85 expects and that the evaluators need (`i1 = i + 1`), computed by a forward scan.
  - Only the two outer cases come from the test. The interior rule (the last knot not above x) is the model's own assumption.
  - Another reading scans forward until `Xs[i] ≥ x`. For an interior x that is not a sample, that picks the segment to the right of the one modelled here. At a sample both readings pick a segment that ends at that sample. So `F(x_k) = y_k` holds either way, and so does `coeffs[k] = DF(x_k)·h` on equal spacing. KnotSegment states the modelled choice.
- Interp.F, Interp.DF and Interp.DDF assume distinct, ascending abscissae (ValidSpline). Go's CubicSpline computes the coefficients from `Ys` in the order given, and F, DF and DDF accept any data.
  - A sort inside findXBounds, done lazily on the first query, would reorder the samples after the coefficients were computed. That sort, and its mismatch with the coefficients, are not modelled.
  - Equal abscissae, which give a zero segment width, are not modelled either.
- Interp.CubicSpline requires at least two samples: Go indexes `Ys[1]` and panics below that. The empty-data expectation of interpLib_test.go:60-66 would panic in the code as written.
- Interp.Arange takes a natural N; Go's `make` panics on a negative length.
- Interp.SegmentDDF divides twice by the width instead of once by its square. Over the reals the two agree whenever the width is non-zero.
- Romberg.Integral: the `k == 0` iteration of the loop, which has no convergence test, is peeled before the loop over the rows k ≥ 1.
- CashKarp.CKRKStep requires a non-empty state; an empty state divides 0 by 0.
  - It also requires the field to keep the dimension of every n-vector. That is more than Go needs: Go only needs the right length at the six points it evaluates. A longer result panics at `currX[i]`, and a shorter one leaves stale entries without panicking.
- CashKarp.CKRKStep assumes that df returns a fresh slice, and aliasing is not modelled. Go scales the slice df returns in place (`k1[i] *= h`) and overwrites currX after each call.
  - A field that updates its argument in place and returns it would make k1 alias x0, so the caller's state (and, through Solve, `out`) would be scaled by h.
  - Likewise k2..k5 would alias currX, so each stage would be overwritten by the next stage's input.
- CashKarp.Solve: the step-size rule `0.99·h·|globalerr/err|^0.2` is the parameter `nextH`.
  - A fuel bound limits the number of iterations, so a run that never reaches tfinal is not captured.
  - Solve requires a non-empty x0 (through CKRKStep). On an empty state Go's Solve does not terminate: `err` is 0/0 = NaN, so `thiserr < globalerr` is never true, the new h is NaN, and t never advances.
  - On states the field does not keep in dimension, the stepper stays put; Go would index out of range there.
- StatFuncs.Mean and StatFuncs.Covariance require non-empty input where Go divides 0 by 0 and yields NaN. StatFuncs.ECDF does the same.
- StatFuncs.Variance tests the length before taking the mean. Go takes the mean first, which on empty input is NaN, and then returns 0 all the same.
- StatFuncs.Median requires at least three elements: below that every path indexes out of range.
- LinFit.DemingReg requires at least two points when the lengths agree. With fewer, Go divides by `n − 1 = 0` or takes the mean of nothing.
  - The closed-form slope (stat/linfit.go:98), with its square root, is the parameter `slope`.
- LinFit.SumSquaresZero gives only one direction: all points on the line ⇒ sum 0. The converse (sum 0 ⇒ every residual is 0) is not stated.
- LinFit.Resample takes the random indices as input, in place of `rand.Intn`. `Bootstraps` is not modelled: it only repeats resample and DemingReg with random draws.
- StatOps.WelchTtest: the square root, the degrees of freedom and the Student t distribution are the parameter `rest`. It receives the means, the squared standard errors and the sample sizes.
- StatOps.KSTest2: `QKS` and the scaling of `Ne` are the parameter `qks`, applied to D and Ne.

## Findings

| source | as written | input that shows it | evidently intended | confidence | as-written member | corrected member |
|---|---|---|---|---|---|---|
| stat/mathfuncs.go:215-220 | the median index is one too high: `t[n/2]`, `t[n/2+1]` for even n and `t[(n+1)/2]` for odd n | sorted [1, 2, 3] gives 3 and [1, 2, 3, 4] gives 3.5; n ≤ 2 indexes out of range | `t[n/2]` for odd n, and the mean of `t[n/2−1]` and `t[n/2]` for even n | high, not executed | StatFuncs.MedianPickOffByOne | StatFuncs.MiddleSplits |
| stat/mathfuncs.go:210 | `copy(arr, thisarr)` copies the fresh zero slice into the caller's data | unsorted [3, 1, 2] returns 0 and leaves the caller's array as [0, 0, 0] | `copy(thisarr, arr)`: sort a copy and keep the caller's data | high, not executed | StatFuncs.Median | StatFuncs.MedianCorrected |
| ode/ckrk.go:95 | `copy(x0, out)` copies the zero state into x0, so the integration starts from 0 | x0 = [1] under the zero field with a positive tolerance returns [0] and overwrites x0 with [0] | `copy(out, x0)`: start from x0 and keep the caller's x0 | high, not executed | CashKarp.SolveDiscardsStart | CashKarp.SolveCorrected |
