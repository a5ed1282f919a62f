/**
 * Romberg quadrature (romberg.go): the composite trapezoid rule and the
 * triangular Richardson table with its convergence exit.
 */
module Romberg {
  import opened RealSeqs
  import Interp

  // ---------------------------------------------------------------------------
  // PPmap and the trapezoid rule

  /** PPmap: replaces every element of arr by f of it, one element at a time. */
  method PPmap(f: real -> real, arr: array<real>)
    modifies arr
    ensures forall i :: 0 <= i < arr.Length ==> arr[i] == f(old(arr[i]))
  {
    var i := 0;
    while i < arr.Length
      invariant 0 <= i <= arr.Length
      invariant forall j :: 0 <= j < i ==> arr[j] == f(old(arr[j]))
      invariant forall j :: i <= j < arr.Length ==> arr[j] == old(arr[j])
    {
      arr[i] := f(arr[i]);
      i := i + 1;
    }
  }

  /** The i-th node a + i*h of a trapezoid rule with step h. */
  function Node(a: real, h: real, i: nat): real
  {
    a + i as real * h
  }

  /** The sum over the first n panels of f(left node) + f(right node). */
  function PanelSum(f: real -> real, a: real, h: real, n: nat): real
  {
    if n == 0 then 0.0 else PanelSum(f, a, h, n - 1) + (f(Node(a, h, n - 1)) + f(Node(a, h, n)))
  }

  /** trap: N <= 0 yields the lower bound a itself, one panel is computed
      directly, otherwise (h/2) times the panel sum with h = (b - a)/N. */
  function TrapRule(f: real -> real, a: real, b: real, n: int): real
  {
    if n <= 0 then a
    else if n == 1 then (b - a) * (f(b) + f(a)) / 2.0
    else PanelSum(f, a, (b - a) / n as real, n) * (((b - a) / n as real) / 2.0)
  }

  /** The sum of f over the interior nodes 1 .. n - 1. */
  function InteriorSum(f: real -> real, a: real, h: real, n: nat): real
  {
    if n <= 1 then 0.0 else InteriorSum(f, a, h, n - 1) + f(Node(a, h, n - 1))
  }

  /** The panel sum counts the two end nodes once and every interior node twice. */
  lemma {:induction false} PanelSumNodes(f: real -> real, a: real, h: real, n: nat)
    requires n >= 1
    ensures PanelSum(f, a, h, n) == f(Node(a, h, 0)) + 2.0 * InteriorSum(f, a, h, n) + f(Node(a, h, n))
    decreases n
  {
    if n > 1 {
      PanelSumNodes(f, a, h, n - 1);
    }
  }

  lemma StepTimesCount(a: real, b: real, n: nat)
    requires n >= 1
    ensures ((b - a) / n as real) * n as real == b - a
    ensures Node(a, (b - a) / n as real, n) == b
  {
  }

  /** For every N >= 1 (the direct one-panel case included) trap is the composite
      rule h * (f(a)/2 + f(x_1) + ... + f(x_{N-1}) + f(b)/2) with x_i = a + i*h. */
  lemma TrapComposite(f: real -> real, a: real, b: real, n: nat)
    requires n >= 1
    ensures var h := (b - a) / n as real;
      TrapRule(f, a, b, n) == h * (f(a) / 2.0 + InteriorSum(f, a, h, n) + f(b) / 2.0)
  {
    var h := (b - a) / n as real;
    StepTimesCount(a, b, n);
    if n > 1 {
      PanelSumNodes(f, a, h, n);
      assert Node(a, h, 0) == a;
    }
  }

  /** Arange(a, b + h, N + 1) samples exactly the nodes a + i*h, i = 0 .. N,
      when h = (b - a)/N. */
  lemma ExtendedArangeNodes(a: real, b: real, n: nat)
    requires n >= 1
    ensures var h := (b - a) / n as real;
      forall i :: 0 <= i <= n ==> Interp.ArangeSeq(a, b + h, n + 1)[i] == Node(a, h, i)
  {
    var h := (b - a) / n as real;
    StepTimesCount(a, b, n);
    assert b + h - a == (n + 1) as real * h;
    assert Interp.ArangeStep(a, b + h, n + 1) == h;
  }

  /** trap: the trapezoid rule as written, sampling through Arange and PPmap.
      N <= 0 yields the lower bound a; every N >= 1 yields the composite rule. */
  method Trap(f: real -> real, a: real, b: real, n: int) returns (r: real)
    ensures r == TrapRule(f, a, b, n)
    ensures n <= 0 ==> r == a
    ensures n >= 1 ==> var h := (b - a) / n as real;
      r == h * (f(a) / 2.0 + InteriorSum(f, a, h, n) + f(b) / 2.0)
  {
    if n >= 1 {
      TrapComposite(f, a, b, n);
    }
    if n <= 0 {
      return a;
    }
    if n == 1 {
      return (b - a) * (f(b) + f(a)) / 2.0;
    }
    var out;
    var h := (b - a) / n as real;
    var xs := Interp.Arange(a, b + h, n + 1);
    ExtendedArangeNodes(a, b, n);
    assert forall i :: 0 <= i <= n ==> xs[i] == Node(a, h, i);
    PPmap(f, xs);
    out := SumPanels(xs, n, f, a, h);
    return out * (h / 2.0);
  }

  /** The accumulation loop of trap over the mapped samples xs[0..N]. */
  method SumPanels(xs: array<real>, n: nat, ghost f: real -> real, ghost a: real, ghost h: real) returns (out: real)
    requires xs.Length == n + 1
    requires forall j :: 0 <= j <= n ==> xs[j] == f(Node(a, h, j))
    ensures out == PanelSum(f, a, h, n)
  {
    out := 0.0;
    var i := 0;
    while i < n
      invariant 0 <= i <= n
      invariant out == PanelSum(f, a, h, i)
    {
      out := out + (xs[i] + xs[i + 1]);
      i := i + 1;
    }
  }

  // ---------------------------------------------------------------------------
  // The Richardson table

  /** The number of rows of the table. */
  const K: nat := 10

  /** The convergence tolerance on consecutive diagonal entries. */
  const Tol: real := 1.0e-16

  function Pow2(i: nat): (r: nat)
    ensures r >= 1
  {
    if i == 0 then 1 else 2 * Pow2(i - 1)
  }

  function Pow4(k: nat): (r: real)
    ensures r >= 1.0 && (k >= 1 ==> r >= 4.0)
  {
    if k == 0 then 1.0 else 4.0 * Pow4(k - 1)
  }

  /** Row 0: trapezoid estimates with 1, 2, 4, ..., 2^(K-1) panels. */
  function Row0(f: real -> real, a: real, b: real): (r: seq<real>)
    ensures |r| == K
  {
    seq(K, i requires 0 <= i < K => TrapRule(f, a, b, Pow2(i)))
  }

  /** One Richardson step of order k: (4^k * prev[i+1] - prev[i]) / (4^k - 1). */
  function Richardson(prev: seq<real>, k: nat): (r: seq<real>)
    requires |prev| >= 1 && k >= 1
    ensures |r| == |prev| - 1
  {
    seq(|prev| - 1, i requires 0 <= i < |prev| - 1 => Extrapolate(Pow4(k), prev[i + 1], prev[i]))
  }

  /** Richardson extrapolation with factor m from a fine and a coarse estimate. */
  function Extrapolate(m: real, fine: real, coarse: real): real
    requires m > 1.0
  {
    (m * fine - coarse) / (m - 1.0)
  }

  /** Row k of the table built on the first row r0: K - k entries. */
  function RowFrom(r0: seq<real>, k: nat): (r: seq<real>)
    requires |r0| == K && k < K
    ensures |r| == K - k
  {
    if k == 0 then r0 else Richardson(RowFrom(r0, k - 1), k)
  }

  function Last(s: seq<real>): real
    requires |s| >= 1
  {
    s[|s| - 1]
  }

  /** The whole table on the first row r0: row k is RowFrom(r0, k). */
  function TableFrom(r0: seq<real>): (t: seq<seq<real>>)
    requires |r0| == K
    ensures |t| == K && forall k :: 0 <= k < K ==> |t[k]| == K - k
  {
    seq(K, k requires 0 <= k < K => RowFrom(r0, k))
  }

  /** Integral's table for f on [a, b]. */
  function Table(f: real -> real, a: real, b: real): (t: seq<seq<real>>)
    ensures |t| == K && forall k :: 0 <= k < K ==> |t[k]| == K - k
  {
    TableFrom(Row0(f, a, b))
  }

  /** A triangular table: K rows, row k holding K - k entries. */
  ghost predicate Triangular(t: seq<seq<real>>)
  {
    |t| == K && forall k :: 0 <= k < K ==> |t[k]| == K - k
  }

  /** Row k meets the tolerance: its last entry is within Tol of row k-1's. */
  predicate Converged(t: seq<seq<real>>, k: nat)
    requires Triangular(t) && 1 <= k < K
  {
    Abs(Last(t[k]) - Last(t[k - 1])) <= Tol
  }

  /** The outcome of scanning rows k .. K-1: the first converged row's last
      entry, or (0, false) when none converges. */
  function ScanRows(t: seq<seq<real>>, k: nat): (real, bool)
    requires Triangular(t) && k >= 1
    decreases K - k
  {
    if k >= K then (0.0, false)
    else if Converged(t, k) then (Last(t[k]), true)
    else ScanRows(t, k + 1)
  }

  lemma ScanStops(t: seq<seq<real>>, k: nat)
    requires Triangular(t) && 1 <= k < K && Converged(t, k)
    ensures ScanRows(t, k) == (Last(t[k]), true)
  {
  }

  lemma ScanContinues(t: seq<seq<real>>, k: nat)
    requires Triangular(t) && 1 <= k < K && !Converged(t, k)
    ensures ScanRows(t, k) == ScanRows(t, k + 1)
  {
  }

  /** Integral's outcome over a table: (0, false) for an empty interval,
      otherwise the scan. */
  function RombergOf(a: real, b: real, t: seq<seq<real>>): (real, bool)
    requires Triangular(t)
  {
    if a == b then (0.0, false) else ScanRows(t, 1)
  }

  /** Integral's outcome for f on [a, b]. */
  function RombergResult(f: real -> real, a: real, b: real): (real, bool)
  {
    RombergOf(a, b, Table(f, a, b))
  }

  /** The first row of Integral's table (romberg.go:44-47). */
  method TrapezoidRow(f: real -> real, a: real, b: real) returns (ik: array<real>)
    ensures fresh(ik) && ik[..] == Row0(f, a, b)
  {
    ik := new real[K];
    var i := 0;
    while i < K
      invariant 0 <= i <= K
      invariant forall j :: 0 <= j < i ==> ik[j] == Row0(f, a, b)[j]
    {
      ik[i] := Trap(f, a, b, Pow2(i));
      i := i + 1;
    }
  }

  /** A later row of Integral's table, from the previous row ip (romberg.go:48-53). */
  method RichardsonRow(ip: array<real>, k: nat) returns (ik: array<real>)
    requires ip.Length >= 1 && k >= 1
    ensures fresh(ik) && ik[..] == Richardson(ip[..], k)
  {
    ik := new real[ip.Length - 1];
    var i := 0;
    while i < ip.Length - 1
      invariant 0 <= i <= ip.Length - 1
      invariant forall j :: 0 <= j < i ==> ik[j] == Richardson(ip[..], k)[j]
    {
      var j := i + 1;
      var m := Pow4(k);
      var fine, coarse := ip[j], ip[j - 1];
      assert fine == ip[..][i + 1] && coarse == ip[..][i];
      ik[i] := (m * fine - coarse) / (m - 1.0);
      assert ik[i] == Extrapolate(m, fine, coarse);
      i := i + 1;
    }
  }

  /** Integral: fills the table row by row, stopping at the first converged row.
      The non-converged exit returns 0 because the row value lives in a shadowing
      local. Row 0 (the k == 0 iteration, which has no convergence test) is filled
      here; the rows k >= 1 by ExtrapolateRows. */
  method Integral(f: real -> real, a: real, b: real) returns (out: real, conv: bool)
    ensures (out, conv) == RombergResult(f, a, b)
  {
    conv := false;
    out := 0.0;
    if a == b {
      return;
    }
    var ip := TrapezoidRow(f, a, b);
    out, conv := ExtrapolateRows(ip);
  }

  /** The iterations k = 1 .. K-1 of Integral's loop over the first row ip:
      each builds row k from row k-1 and returns its last entry once it lies
      within the tolerance of row k-1's. */
  method ExtrapolateRows(ip0: array<real>) returns (out: real, conv: bool)
    requires ip0.Length == K
    ensures (out, conv) == ScanRows(TableFrom(ip0[..]), 1)
  {
    ghost var t := TableFrom(ip0[..]);
    var ip := ip0;
    var k := 1;
    while k < K
      invariant 1 <= k <= K
      invariant ip[..] == t[k - 1]
      invariant ScanRows(t, 1) == ScanRows(t, k)
    {
      var ik := RichardsonRow(ip, k);
      assert ik[..] == t[k];
      var rowOut := ik[K - k - 1];
      var err := Abs(ik[K - k - 1] - ip[K - k]);
      if err <= Tol {
        ScanStops(t, k);
        return rowOut, true;
      }
      ScanContinues(t, k);
      ip := ik;
      k := k + 1;
    }
    return 0.0, false;
  }

  // ---------------------------------------------------------------------------
  // Properties

  /** Scanning from row k reports the first converged row at or after k, or
      (0, false) when rows k .. K-1 all miss the tolerance. */
  lemma {:induction false} ScanMeaning(t: seq<seq<real>>, k: nat)
    requires Triangular(t) && k >= 1
    ensures ScanRows(t, k).1 ==>
      exists j ::
        && k <= j < K && Converged(t, j) && ScanRows(t, k).0 == Last(t[j])
        && forall i :: k <= i < j ==> !Converged(t, i)
    ensures !ScanRows(t, k).1 ==> ScanRows(t, k).0 == 0.0 && forall i :: k <= i < K ==> !Converged(t, i)
    decreases K - k
  {
    if k < K && !Converged(t, k) {
      ScanMeaning(t, k + 1);
      if ScanRows(t, k).1 {
        var j :| k + 1 <= j < K && Converged(t, j) &&
          ScanRows(t, k + 1).0 == Last(t[j]) && forall i :: k + 1 <= i < j ==> !Converged(t, i);
        assert forall i :: k <= i < j ==> !Converged(t, i);
      }
    }
  }

  /** Integral reports convergence only with the last entry of the first row k >= 1
      whose last entry lies within 1e-16 of row k-1's; otherwise it returns
      (0, false), both for a == b and when no row converges. */
  lemma RombergMeaning(f: real -> real, a: real, b: real)
    ensures a == b ==> RombergResult(f, a, b) == (0.0, false)
    ensures RombergResult(f, a, b).1 ==>
      exists k ::
        && 1 <= k < K && Converged(Table(f, a, b), k)
        && RombergResult(f, a, b).0 == Last(Table(f, a, b)[k])
        && forall i :: 1 <= i < k ==> !Converged(Table(f, a, b), i)
    ensures !RombergResult(f, a, b).1 ==>
      && RombergResult(f, a, b).0 == 0.0
      && (a == b || forall k :: 1 <= k < K ==> !Converged(Table(f, a, b), k))
  {
    if a != b {
      ScanMeaning(Table(f, a, b), 1);
    }
  }

  /** Extrapolating from two equal estimates returns that estimate. */
  lemma ExtrapolateConstant(m: real, c: real)
    requires m > 1.0
    ensures Extrapolate(m, c, c) == c
  {
    assert m * c - c == (m - 1.0) * c;
    CancelFactor(m - 1.0, c);
  }

  lemma CancelFactor(q: real, c: real)
    requires q != 0.0
    ensures (q * c) / q == c
  {
  }

  /** A Richardson step maps a constant row to a constant row with the same value. */
  lemma RichardsonKeepsConstant(prev: seq<real>, k: nat, c: real)
    requires |prev| >= 1 && k >= 1
    requires forall i :: 0 <= i < |prev| ==> prev[i] == c
    ensures forall i :: 0 <= i < |prev| - 1 ==> Richardson(prev, k)[i] == c
  {
    ExtrapolateConstant(Pow4(k), c);
  }

  // ---------------------------------------------------------------------------
  // The integrand x*x on [0, 3]

  function Square(x: real): real
  {
    x * x
  }

  /** The sum of i^2 + (i+1)^2 over i < n. */
  function SquarePanels(n: nat): real
  {
    if n == 0 then 0.0 else SquarePanels(n - 1) + Square((n - 1) as real) + Square(n as real)
  }

  lemma {:induction false} SquarePanelsClosed(n: nat)
    ensures 3.0 * SquarePanels(n) == n as real * (2.0 * n as real * n as real + 1.0)
  {
    if n > 0 {
      SquarePanelsClosed(n - 1);
      var p, q := (n - 1) as real, n as real;
      assert q == p + 1.0;
      assert p * (2.0 * p * p + 1.0) + 3.0 * (p * p + q * q) == q * (2.0 * q * q + 1.0);
    }
  }

  lemma SquareOfProduct(p: real, h: real)
    ensures Square(p * h) == Square(h) * Square(p)
  {
  }

  lemma Distribute(u: real, x: real, y: real, z: real)
    ensures u * x + u * y + u * z == u * (x + y + z)
  {
  }

  /** With a = 0 the panel sum of x*x is h^2 times the sum of i^2 + (i+1)^2. */
  lemma {:induction false} PanelSumSquare(h: real, n: nat)
    ensures PanelSum(Square, 0.0, h, n) == Square(h) * SquarePanels(n)
  {
    if n > 0 {
      PanelSumSquare(h, n - 1);
      var p, q := (n - 1) as real, n as real;
      assert Node(0.0, h, n - 1) == p * h && Node(0.0, h, n) == q * h;
      SquareOfProduct(p, h);
      SquareOfProduct(q, h);
      Distribute(Square(h), SquarePanels(n - 1), Square(p), Square(q));
    }
  }

  /** The trapezoid rule for x*x on [0, 3] with N >= 1 panels overshoots the
      integral 9 by exactly 4.5/N^2. */
  lemma TrapSquare(n: nat)
    requires n >= 1
    ensures TrapRule(Square, 0.0, 3.0, n) == 9.0 + 4.5 / (n as real * n as real)
  {
    var N := n as real;
    if n > 1 {
      var h := 3.0 / N;
      PanelSumSquare(h, n);
      SquarePanelsClosed(n);
      var S := SquarePanels(n);
      assert 3.0 * S == N * (2.0 * N * N + 1.0);
      assert h * N == 3.0;
      var T := TrapRule(Square, 0.0, 3.0, n);
      assert T == h * h * S * (h / 2.0);
      assert T * (N * N) == (h * N) * (h * N) * (h * N) * (2.0 * N * N + 1.0) / 6.0;
      assert T * (N * N) == 9.0 * (N * N) + 4.5;
      DivideOut(T, 9.0, 4.5, N * N);
    }
  }

  lemma DivideOut(t: real, c: real, d: real, q: real)
    requires q > 0.0 && t * q == c * q + d
    ensures t == c + d / q
  {
  }

  lemma {:induction false} Pow2Squared(i: nat)
    ensures Pow2(i) as real * Pow2(i) as real == Pow4(i)
  {
    if i > 0 {
      Pow2Squared(i - 1);
      var p := Pow2(i - 1) as real;
      assert Pow2(i) as real == 2.0 * p;
      assert (2.0 * p) * (2.0 * p) == 4.0 * (p * p);
    }
  }

  /** One Richardson step of order 1 cancels an error term e/4^i: from row
      entries c + e/(4q) and c + e/q it yields c exactly. */
  lemma RichardsonCancels(q: real, c: real, e: real)
    requires q > 0.0
    ensures Extrapolate(4.0, c + e / (4.0 * q), c + e / q) == c
  {
    assert 4.0 * (e / (4.0 * q)) == e / q;
  }

  /** Row 0 for x*x on [0, 3]: entry i is 9 + 4.5/4^i. */
  lemma SquareRow0(i: nat)
    requires i < K
    ensures Row0(Square, 0.0, 3.0)[i] == 9.0 + 4.5 / Pow4(i)
  {
    TrapSquare(Pow2(i));
    Pow2Squared(i);
  }

  /** A first Richardson step removes an error term e/4^i from a row. */
  lemma RichardsonOfErrors(r: seq<real>, c: real, e: real, i: nat)
    requires i + 1 < |r|
    requires r[i] == c + e / Pow4(i) && r[i + 1] == c + e / Pow4(i + 1)
    ensures Richardson(r, 1)[i] == c
  {
    assert Pow4(i + 1) == 4.0 * Pow4(i);
    assert Pow4(1) == 4.0;
    RichardsonCancels(Pow4(i), c, e);
  }

  /** Row 1 for x*x on [0, 3] is exact: entry i is 9 (Simpson's rule). */
  lemma SquareRow1(i: nat)
    requires i < K - 1
    ensures RowFrom(Row0(Square, 0.0, 3.0), 1)[i] == 9.0
  {
    SquareRow0(i);
    SquareRow0(i + 1);
    RichardsonOfErrors(Row0(Square, 0.0, 3.0), 9.0, 4.5, i);
  }

  /** Integral(x*x, 0, 3): rows 0 and 1 differ (the trapezoid estimates overshoot),
      row 1 and row 2 both end in 9, so the result is (9, true). */
  lemma RombergSquare()
    ensures RombergResult(Square, 0.0, 3.0) == (9.0, true)
  {
    var t := Table(Square, 0.0, 3.0);
    SquareRow0(9);
    forall i | 0 <= i < K - 1
      ensures RowFrom(Row0(Square, 0.0, 3.0), 1)[i] == 9.0
    {
      SquareRow1(i);
    }
    RichardsonKeepsConstant(RowFrom(Row0(Square, 0.0, 3.0), 1), 2, 9.0);
    assert Last(t[0]) == 9.0 + 4.5 / Pow4(9);
    assert Pow4(9) == 262144.0;
    assert Last(t[1]) == 9.0 && Last(t[2]) == 9.0;
    assert !Converged(t, 1);
    assert Converged(t, 2);
  }
}
