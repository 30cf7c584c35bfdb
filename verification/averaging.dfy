/** The mean of per-example metric vectors: an accumulator starts at zero,
    every example's vector is added elementwise, and the sum is divided by
    the number of examples. */
module Averaging {
  import opened RealArith
  import opened Scores

  /** A metric vector in reporting order. */
  predicate IsVector(v: seq<real>) {
    |v| == Width
  }

  /** Every element of `vs` is a metric vector. */
  predicate AllVectors(vs: seq<seq<real>>) {
    forall k :: 0 <= k < |vs| ==> IsVector(vs[k])
  }

  /** The sum of entry `j` over all vectors, added in order. */
  function ColumnSum(vs: seq<seq<real>>, j: nat): real
    requires AllVectors(vs) && j < Width
  {
    if |vs| == 0 then 0.0
    else ColumnSum(vs[..|vs| - 1], j) + vs[|vs| - 1][j]
  }

  /** The all-zero accumulator. */
  function Zero(): (z: seq<real>)
    ensures IsVector(z)
  {
    seq(Width, _ => 0.0)
  }

  /** Elementwise addition of two metric vectors. */
  function Add(a: seq<real>, b: seq<real>): (r: seq<real>)
    requires IsVector(a) && IsVector(b)
    ensures IsVector(r)
  {
    seq(Width, j requires 0 <= j < Width => a[j] + b[j])
  }

  /** Elementwise division of a metric vector by a positive count. */
  function Divide(a: seq<real>, n: nat): (r: seq<real>)
    requires IsVector(a) && n > 0
    ensures IsVector(r)
  {
    seq(Width, j requires 0 <= j < Width => a[j] / n as real)
  }

  /** The mean vector of a non-empty list of metric vectors. */
  function Mean(vs: seq<seq<real>>): (m: seq<real>)
    requires AllVectors(vs) && |vs| > 0
    ensures IsVector(m)
  {
    seq(Width, j requires 0 <= j < Width => ColumnSum(vs, j) / |vs| as real)
  }

  /** The mean of identical vectors is that vector. */
  lemma MeanOfIdentical(vs: seq<seq<real>>)
    requires AllVectors(vs) && |vs| > 0
    requires forall k :: 0 <= k < |vs| ==> vs[k] == vs[0]
    ensures Mean(vs) == vs[0]
  {
    forall j | 0 <= j < Width
      ensures Mean(vs)[j] == vs[0][j]
    {
      ColumnSumConstant(vs, j);
    }
  }

  /** An entry that lies in [0, 1) in every vector lies in [0, 1) in the mean. */
  lemma MeanBounded(vs: seq<seq<real>>, j: nat)
    requires AllVectors(vs) && |vs| > 0 && j < Width
    requires forall k :: 0 <= k < |vs| ==> 0.0 <= vs[k][j] < 1.0
    ensures 0.0 <= Mean(vs)[j] < 1.0
  {
    ColumnSumBounds(vs, j);
    QuotientBounds(ColumnSum(vs, j), |vs| as real);
  }

  /** Summing `n` copies of one entry gives `n` times the entry. */
  lemma {:induction false} ColumnSumConstant(vs: seq<seq<real>>, j: nat)
    requires AllVectors(vs) && j < Width && |vs| > 0
    requires forall k :: 0 <= k < |vs| ==> vs[k] == vs[0]
    ensures ColumnSum(vs, j) == |vs| as real * vs[0][j]
  {
    if |vs| > 1 {
      ColumnSumConstant(vs[..|vs| - 1], j);
    }
  }

  /** Summing entries in [0, 1) gives a sum in [0, n), and in [0, n) only
      when there is at least one entry. */
  lemma {:induction false} ColumnSumBounds(vs: seq<seq<real>>, j: nat)
    requires AllVectors(vs) && j < Width
    requires forall k :: 0 <= k < |vs| ==> 0.0 <= vs[k][j] < 1.0
    ensures 0.0 <= ColumnSum(vs, j) <= |vs| as real
    ensures |vs| > 0 ==> ColumnSum(vs, j) < |vs| as real
  {
    if |vs| > 0 {
      ColumnSumBounds(vs[..|vs| - 1], j);
    }
  }

  /** Summing entry `a` gives at most the sum of entry `b` when every vector
      has `a` at most `b`. */
  lemma {:induction false} ColumnSumMonotone(vs: seq<seq<real>>, a: nat, b: nat)
    requires AllVectors(vs) && a < Width && b < Width
    requires forall k :: 0 <= k < |vs| ==> vs[k][a] <= vs[k][b]
    ensures ColumnSum(vs, a) <= ColumnSum(vs, b)
  {
    if |vs| > 0 {
      ColumnSumMonotone(vs[..|vs| - 1], a, b);
    }
  }

  /** An order between two entries that holds in every vector holds in the mean. */
  lemma MeanMonotone(vs: seq<seq<real>>, a: nat, b: nat)
    requires AllVectors(vs) && |vs| > 0 && a < Width && b < Width
    requires forall k :: 0 <= k < |vs| ==> vs[k][a] <= vs[k][b]
    ensures Mean(vs)[a] <= Mean(vs)[b]
  {
    ColumnSumMonotone(vs, a, b);
    QuotientMonotone(ColumnSum(vs, a), ColumnSum(vs, b), |vs| as real);
  }
}
