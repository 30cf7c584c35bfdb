/** The linearly spaced probabilities of the threshold sampler, and what
    an ordered threshold sequence means for the sweep. */
module Thresholds {
  import opened Pixels
  import opened Mask
  import opened RealArith
  import opened Scores

  /** Every later element is at least every earlier one. */
  predicate NonDecreasing(s: seq<real>) {
    forall i, j :: 0 <= i <= j < |s| ==> s[i] <= s[j]
  }

  /** `num` evenly spaced values from `start` to `stop`, both included: the
      i-th is `start + i * step` with `step = (stop - start) / (num - 1)`,
      and the last is set to `stop` exactly. One value is just `start`. */
  function Linspace(start: real, stop: real, num: nat): (r: seq<real>)
    ensures |r| == num
    ensures num > 0 ==> r[0] == start
    ensures num > 1 ==> r[num - 1] == stop
    ensures start <= stop ==> NonDecreasing(r)
    ensures start <= stop ==> forall i :: 0 <= i < num ==> start <= r[i] <= stop
    // a degenerate range collapses every value onto it
    ensures start == stop ==> forall i :: 0 <= i < num ==> r[i] == start
  {
    if num == 1 then [start]
    else
      var step := (stop - start) / (num - 1) as real;
      var r := seq(num, i requires 0 <= i < num => if i == num - 1 then stop else start + i as real * step);
      LinspaceFacts(start, stop, num, step, r);
      r
  }

  lemma LinspaceFacts(start: real, stop: real, num: nat, step: real, r: seq<real>)
    requires num != 1
    requires step == (stop - start) / (num - 1) as real
    requires |r| == num
    requires forall i :: 0 <= i < num ==> r[i] == if i == num - 1 then stop else start + i as real * step
    ensures start <= stop ==> NonDecreasing(r)
    ensures start <= stop ==> forall i :: 0 <= i < num ==> start <= r[i] <= stop
    ensures start == stop ==> forall i :: 0 <= i < num ==> r[i] == start
  {
    if num > 1 {
      assert step * (num - 1) as real == stop - start;
      if start <= stop {
        QuotientBounds(stop - start, (num - 1) as real);
        forall i | 0 <= i < num
          ensures start <= r[i] <= stop
        {
          NonNegProduct(i as real, step);
          NonNegProduct(((num - 1) - i) as real, step);
        }
        forall i, j | 0 <= i <= j < num
          ensures r[i] <= r[j]
        {
          NonNegProduct((j - i) as real, step);
        }
      }
    }
  }

  /** Along a non-decreasing threshold sequence the number of mass pixels of
      a fixed image never grows. */
  lemma SweepMassAntitone(logits: seq<real>, labels: seq<int>, thresholds: seq<real>)
    requires |logits| == |labels|
    requires NonDecreasing(thresholds)
    ensures forall i, j :: 0 <= i <= j < |thresholds| ==>
              Count(Post(logits, labels, thresholds[j]), Mass)
              <= Count(Post(logits, labels, thresholds[i]), Mass)
  {
    forall i, j | 0 <= i <= j < |thresholds|
      ensures Count(Post(logits, labels, thresholds[j]), Mass)
              <= Count(Post(logits, labels, thresholds[i]), Mass)
    {
      PostMassAntitone(logits, labels, thresholds[i], thresholds[j]);
    }
  }
}
