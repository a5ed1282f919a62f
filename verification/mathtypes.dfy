/**
 * Function types and the left fold of mathtypes.go, with VectorField.Val.
 * The future-returning wrappers (MakeFtMathop and friends) run goroutines and
 * are not modelled.
 */
module MathTypes {
  import opened RealSeqs

  /** A univariate function. */
  type Mathop = real -> real

  /** A bivariate function. */
  type BiMathop = (real, real) -> real

  /** A map from vectors to vectors. */
  type Linop = seq<real> -> seq<real>

  /** The left fold f(...f(f(v[0], v[1]), v[2])..., v[n-1]) of a non-empty vector. */
  function FoldLeft(f: BiMathop, v: seq<real>): real
    requires |v| >= 1
    decreases |v|
  {
    if |v| == 1 then v[0] else f(FoldLeft(f, v[..|v| - 1]), v[|v| - 1])
  }

  /** Fold: an empty vector indexes out of range, a single element is returned
      as is, and otherwise f is applied once per element after the first. */
  method Fold(f: BiMathop, vec: seq<real>) returns (val: real)
    requires |vec| >= 1
    ensures val == FoldLeft(f, vec)
  {
    if |vec| <= 1 {
      return vec[0];
    }
    val := vec[0];
    var nvec := vec[1..];
    for i := 0 to |nvec|
      invariant val == FoldLeft(f, vec[..i + 1])
    {
      assert vec[..i + 2][..i + 1] == vec[..i + 1];
      val := f(val, nvec[i]);
    }
    assert vec[..|nvec| + 1] == vec;
  }

  /** Folding addition sums the vector. */
  lemma {:induction false} FoldAddIsSum(v: seq<real>)
    requires |v| >= 1
    ensures FoldLeft(Add, v) == Sum(v)
    decreases |v|
  {
    if |v| == 1 {
      assert v[..0] == [];
    } else {
      FoldAddIsSum(v[..|v| - 1]);
    }
  }

  /** The fold of f over v ++ [x] applies f once more to the fold of v. */
  lemma FoldSnoc(f: BiMathop, v: seq<real>, x: real)
    requires |v| >= 1
    ensures FoldLeft(f, v + [x]) == f(FoldLeft(f, v), x)
  {
    assert (v + [x])[..|v|] == v;
  }

  /** The addition and multiplication folded by the package's fold example. */
  function Add(x: real, y: real): real { x + y }

  function Mult(x: real, y: real): real { x * y }

  /** Folding addition and multiplication over [1, 2, 3, 4] gives 10 and 24. */
  lemma FoldAddMult()
    ensures FoldLeft(Add, [1.0, 2.0, 3.0, 4.0]) == 10.0
    ensures FoldLeft(Mult, [1.0, 2.0, 3.0, 4.0]) == 24.0
  {
    var v := [1.0, 2.0, 3.0, 4.0];
    FoldAddIsSum(v);
    assert v[..3] == [1.0, 2.0, 3.0] && v[..3][..2] == [1.0, 2.0] && v[..3][..2][..1] == [1.0];
    assert FoldLeft(Mult, [1.0, 2.0]) == 2.0;
    assert FoldLeft(Mult, [1.0, 2.0, 3.0]) == 6.0;
  }

  /** A vector field: a rule mapping points to vectors. */
  datatype VectorField = VectorField(rule: Linop)
  {
    /** Val: the slice allocated first is discarded; the result is the rule's output. */
    method Val(pts: seq<real>) returns (out: seq<real>)
      ensures out == rule(pts)
    {
      var buffer := new real[|pts|];
      out := buffer[..];
      out := rule(pts);
    }
  }
}
