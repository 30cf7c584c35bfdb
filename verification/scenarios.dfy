/** Whole-image cases of post-processing followed by the metric calculator. */
module Scenarios {
  import opened Pixels
  import opened Mask
  import opened Confusion
  import opened RealArith
  import opened Scores

  /** `n / (n + epsilon)` for a positive count lies within epsilon below one. */
  lemma NearOne(n: nat)
    requires n > 0
    ensures 1.0 - Epsilon < Ratio(n, n) < 1.0
  {
    var d := n as real + Epsilon;
    var q := n as real / d;
    assert q * d == n as real;
    if q <= 1.0 - Epsilon {
      NonNegProduct(1.0 - Epsilon - q, d);
    }
  }

  /** Every pixel is a mass with a logit at the threshold or above: the
      whole image is true positive. */
  lemma AllMassScenario(logits: seq<real>, labels: seq<int>, threshold: real)
    requires |logits| == |labels|
    requires forall i :: 0 <= i < |labels| ==> labels[i] == Mass && logits[i] >= threshold
    ensures Tally(Post(logits, labels, threshold), labels) == Counts(|labels|, 0, 0, 0)
  {
  }

  /** All pixels true positive: IOU, precision and recall agree, within
      epsilon of one. */
  lemma PerfectDetection(n: nat, sqrt: real -> real)
    requires n > 0
    ensures var m := FromCounts(Counts(n, 0, 0, 0), sqrt);
      && m.iou == m.precision == m.recall == Ratio(n, n)
      && 1.0 - Epsilon < m.iou
  {
    NearOne(n);
  }

  /** Every pixel is tissue with a logit below the threshold: the whole
      image is true negative. */
  lemma AllTissueScenario(logits: seq<real>, labels: seq<int>, threshold: real)
    requires |logits| == |labels|
    requires forall i :: 0 <= i < |labels| ==> labels[i] == Tissue && logits[i] < threshold
    ensures Tally(Post(logits, labels, threshold), labels) == Counts(0, 0, |labels|, 0)
  {
  }

  /** All pixels true negative: specificity and accuracy are within epsilon
      of one, and sensitivity, precision, IOU and F1 are zero. */
  lemma PerfectRejection(n: nat, sqrt: real -> real)
    requires n > 0
    ensures var m := FromCounts(Counts(0, 0, n, 0), sqrt);
      && m.specificity == m.accuracy == Ratio(n, n)
      && 1.0 - Epsilon < m.specificity
      && m.sensitivity == m.precision == m.iou == m.f1 == 0.0
  {
    NearOne(n);
  }

  /** Every pixel is outside the breast area: the mask is all outside and no
      pixel is classified. */
  lemma AllOutsideScenario(logits: seq<real>, labels: seq<int>, threshold: real)
    requires |logits| == |labels|
    requires forall i :: 0 <= i < |labels| ==> labels[i] == Outside
    ensures Count(Post(logits, labels, threshold), Outside) == |labels|
    ensures Tally(Post(logits, labels, threshold), labels) == Counts(0, 0, 0, 0)
  {
  }

  /** No classified pixel: every ratio is zero rather than undefined. */
  lemma EmptyMatrix(sqrt: real -> real)
    ensures var m := FromCounts(Counts(0, 0, 0, 0), sqrt);
      && m.iou == m.f1 == m.accuracy == m.sensitivity == 0.0
      && m.specificity == m.precision == m.recall == 0.0
      && (IsSquareRoot(sqrt(0.0), 0.0) ==> m.gMean == 0.0)
  {
    var m := FromCounts(Counts(0, 0, 0, 0), sqrt);
    assert GMeanSquare(m.sensitivity, m.specificity) == 0.0;
    RootOfZero(sqrt(0.0));
  }
}
