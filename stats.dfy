/**
 * The aggregates the beat detector takes over its energy history: the sum,
 * the mean and the population variance of a sequence of reals.
 */
module Statistics {
  function Sum(s: seq<real>): real
  {
    if s == [] then 0.0 else Sum(s[..|s| - 1]) + s[|s| - 1]
  }

  function Mean(s: seq<real>): real
    requires |s| > 0
  {
    Sum(s) / |s| as real
  }

  /** The sum of the squared distances of the elements of `s` from `m`. */
  function SquaredDeviations(s: seq<real>, m: real): (r: real)
    ensures r >= 0.0
  {
    if s == [] then 0.0
    else
      var d := s[|s| - 1] - m;
      SquaredDeviations(s[..|s| - 1], m) + d * d
  }

  /** Population variance: squared deviations from the mean, divided by the count. */
  function Variance(s: seq<real>): (v: real)
    requires |s| > 0
    ensures v >= 0.0
  {
    SquaredDeviations(s, Mean(s)) / |s| as real
  }

  predicate Constant(s: seq<real>, c: real)
  {
    forall i :: 0 <= i < |s| ==> s[i] == c
  }

  lemma {:induction false} SumOfConstant(s: seq<real>, c: real)
    requires Constant(s, c)
    ensures Sum(s) == |s| as real * c
  {
    if s != [] {
      SumOfConstant(s[..|s| - 1], c);
    }
  }

  lemma {:induction false} DeviationsOfConstant(s: seq<real>, c: real)
    requires Constant(s, c)
    ensures SquaredDeviations(s, c) == 0.0
  {
    if s != [] {
      DeviationsOfConstant(s[..|s| - 1], c);
    }
  }

  /** A sequence whose elements all equal `c` has mean `c` and variance 0. */
  lemma ConstantHasNoVariance(s: seq<real>, c: real)
    requires |s| > 0 && Constant(s, c)
    ensures Mean(s) == c
    ensures Variance(s) == 0.0
  {
    SumOfConstant(s, c);
    DeviationsOfConstant(s, c);
  }

  predicate NonNegative(s: seq<real>)
  {
    forall i :: 0 <= i < |s| ==> s[i] >= 0.0
  }

  lemma {:induction false} SumOfNonNegative(s: seq<real>)
    requires forall i :: 0 <= i < |s| ==> s[i] >= 0.0
    ensures Sum(s) >= 0.0
  {
    if s != [] {
      SumOfNonNegative(s[..|s| - 1]);
    }
  }

  /** The mean of non-negative values is non-negative. */
  lemma MeanOfNonNegative(s: seq<real>)
    requires |s| > 0
    requires forall i :: 0 <= i < |s| ==> s[i] >= 0.0
    ensures Mean(s) >= 0.0
  {
    SumOfNonNegative(s);
  }

  /** Bounds on `a` relative to `lo * b` and `hi * b` carry over to `a / b` for positive `b`. */
  lemma QuotientBounds(a: real, b: real, lo: real, hi: real)
    requires b > 0.0
    ensures lo * b <= a ==> lo <= a / b
    ensures a <= hi * b ==> a / b <= hi
    ensures a < hi * b ==> a / b < hi
  {
    assert (a / b) * b == a;
  }
}
