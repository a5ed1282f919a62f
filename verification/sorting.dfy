/**
 * Go's sort.Float64sAreSorted and sort.Float64s on a slice of reals, as used
 * by Median and KSTest2 (stat/mathfuncs.go, stat/statops.go). The sort is an
 * insertion sort; only its outcome (sorted, same elements) matters to them.
 */
module Sorting {
  import opened RealSeqs

  ghost predicate Sorted(s: seq<real>)
  {
    forall i, j :: 0 <= i < j < |s| ==> s[i] <= s[j]
  }

  /** sort.Float64sAreSorted: no element is smaller than its predecessor. */
  method AreSorted(a: array<real>) returns (b: bool)
    ensures b <==> Sorted(a[..])
  {
    var i := a.Length - 1;
    while i > 0
      invariant -1 <= i < a.Length
      invariant forall p, q :: 0 <= p && i <= p < q < a.Length ==> a[p] <= a[q]
    {
      if a[i] < a[i - 1] {
        return false;
      }
      i := i - 1;
    }
    return true;
  }

  /** sort.Float64s: sorts a in place, keeping its elements. */
  method SortFloats(a: array<real>)
    modifies a
    ensures Sorted(a[..])
    ensures multiset(a[..]) == multiset(old(a[..]))
  {
    if a.Length <= 1 {
      return;
    }
    for i := 1 to a.Length
      invariant forall p, q :: 0 <= p < q < i ==> a[p] <= a[q]
      invariant multiset(a[..]) == multiset(old(a[..]))
    {
      InsertLast(a, i);
    }
  }

  /** Moves a[i] left past every larger element, so that a[..i+1] is sorted
      when a[..i] was. */
  method InsertLast(a: array<real>, i: nat)
    requires i < a.Length
    requires forall p, q :: 0 <= p < q < i ==> a[p] <= a[q]
    modifies a
    ensures forall p, q :: 0 <= p < q <= i ==> a[p] <= a[q]
    ensures multiset(a[..]) == multiset(old(a[..]))
  {
    var j := i;
    while j > 0 && a[j - 1] > a[j]
      invariant 0 <= j <= i
      invariant forall p, q :: 0 <= p < q <= i && p != j && q != j ==> a[p] <= a[q]
      invariant forall q :: j < q <= i ==> a[j] <= a[q]
      invariant multiset(a[..]) == multiset(old(a[..]))
    {
      Swap(a, j - 1, j);
      j := j - 1;
    }
  }

  /** Exchanges a[i] and a[j]. */
  method Swap(a: array<real>, i: nat, j: nat)
    requires i < a.Length && j < a.Length
    modifies a
    ensures a[..] == old(a[..])[i := old(a[j])][j := old(a[i])]
    ensures multiset(a[..]) == multiset(old(a[..]))
  {
    a[i], a[j] := a[j], a[i];
  }

  /** A rearrangement of n zeros is n zeros. */
  lemma {:induction false} ZerosStayZeros(s: seq<real>, n: nat)
    requires multiset(s) == multiset(Const(0.0, n))
    ensures s == Const(0.0, n)
  {
    assert |s| == n by {
      assert |multiset(s)| == |s|;
    }
    forall i | 0 <= i < |s|
      ensures s[i] == 0.0
    {
      assert s[i] in multiset(s);
    }
  }
}
