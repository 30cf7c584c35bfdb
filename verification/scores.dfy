/** The metric calculator: eight quality metrics derived from the confusion
    matrix. Seven are count ratios, each stabilised by a small constant added
    to its denominator; the g-mean is the square root of the product of two
    of them.

    Arithmetic is exact over `real`; the script computes in double
    precision. The square root of the g-mean is a floating-point library
    routine and is passed in as the parameter `sqrt`. */
module Scores {
  import opened RealArith
  import opened Pixels
  import opened Mask
  import opened Confusion

  /** The constant added to every denominator (1e-7). */
  const Epsilon: real := 0.0000001

  /** The number of metrics in a metric vector. */
  const Width: nat := 8

  /** The eight metrics of one segmentation, by name. */
  datatype MetricVector = MetricVector(
    iou: real, f1: real, gMean: real, accuracy: real,
    sensitivity: real, specificity: real, precision: real, recall: real)
  {
    /** The vector in its fixed reporting order:
        IOU, F1, G-mean, Accuracy, Sensitivity, Specificity, Precision, Recall. */
    function AsSeq(): (s: seq<real>)
      ensures |s| == Width
    {
      [iou, f1, gMean, accuracy, sensitivity, specificity, precision, recall]
    }
  }

  /** An epsilon-stabilised count ratio `num / (den + epsilon)`. */
  function Ratio(num: nat, den: nat): (r: real)
    ensures 0.0 <= r
    ensures r == 0.0 <==> num == 0
    ensures num <= den ==> r < 1.0
  {
    QuotientBounds(num as real, den as real + Epsilon);
    num as real / (den as real + Epsilon)
  }

  /** A larger denominator gives a smaller ratio. */
  lemma RatioAntitone(num: nat, small: nat, large: nat)
    requires small <= large
    ensures Ratio(num, large) <= Ratio(num, small)
  {
    QuotientAntitone(num as real, small as real + Epsilon, large as real + Epsilon);
  }

  /** With a positive numerator, a strictly larger denominator gives a
      strictly smaller ratio. */
  lemma RatioStrictAntitone(num: nat, small: nat, large: nat)
    requires 0 < num && small < large
    ensures Ratio(num, large) < Ratio(num, small)
  {
    QuotientStrictAntitone(num as real, small as real + Epsilon, large as real + Epsilon);
  }

  /** Twice the product of two numbers in [0, 1) is at most their sum. */
  lemma HarmonicNumerator(precision: real, recall: real)
    requires 0.0 <= precision < 1.0 && 0.0 <= recall < 1.0
    ensures 0.0 <= 2.0 * (precision * recall) <= precision + recall
  {
    var product := precision * recall;
    ProductBelow(precision, recall);
    ProductBelow(recall, precision);
    assert product <= precision && product <= recall;
    NonNegProduct(precision, recall);
    TwiceBelowSum(precision, recall, product);
  }

  /** The F1 numerator is below its denominator, and zero exactly when
      precision or recall is. */
  lemma HarmonicBounds(precision: real, recall: real)
    requires 0.0 <= precision < 1.0 && 0.0 <= recall < 1.0
    ensures 0.0 <= 2.0 * (precision * recall) < precision + recall + Epsilon
    ensures precision * recall == 0.0 <==> precision == 0.0 || recall == 0.0
  {
    HarmonicNumerator(precision, recall);
    ZeroProduct(precision, recall);
  }

  /** The F1 score from precision and recall:
      `2 * precision * recall / (precision + recall + epsilon)`. */
  function F1(precision: real, recall: real): (r: real)
    requires 0.0 <= precision < 1.0 && 0.0 <= recall < 1.0
    ensures 0.0 <= r < 1.0
    ensures r == 0.0 <==> precision == 0.0 || recall == 0.0
  {
    HarmonicBounds(precision, recall);
    QuotientBounds(2.0 * (precision * recall), precision + recall + Epsilon);
    2.0 * (precision * recall) / (precision + recall + Epsilon)
  }

  /** The product of sensitivity and specificity, the square of the g-mean. */
  function GMeanSquare(sensitivity: real, specificity: real): (x: real)
    requires 0.0 <= sensitivity < 1.0 && 0.0 <= specificity < 1.0
    ensures 0.0 <= x < 1.0
  {
    ProductBelow(sensitivity, specificity);
    NonNegProduct(sensitivity, specificity);
    sensitivity * specificity
  }

  /** The metrics of a confusion matrix. */
  function FromCounts(c: Counts, sqrt: real -> real): (m: MetricVector)
    // the seven ratios lie in [0, 1), so no denominator is ever zero
    ensures 0.0 <= m.iou < 1.0 && 0.0 <= m.f1 < 1.0 && 0.0 <= m.accuracy < 1.0
    ensures 0.0 <= m.sensitivity < 1.0 && 0.0 <= m.specificity < 1.0
    ensures 0.0 <= m.precision < 1.0 && 0.0 <= m.recall < 1.0
    // recall is sensitivity under another name
    ensures m.recall == m.sensitivity
    // IOU adds false negatives to precision's denominator and false
    // positives to sensitivity's, so it is at most either
    ensures m.iou <= m.precision && m.iou <= m.sensitivity
    // IOU, F1, sensitivity and precision vanish exactly without true positives
    ensures m.iou == 0.0 <==> c.tp == 0
    ensures m.f1 == 0.0 <==> c.tp == 0
    ensures m.sensitivity == 0.0 <==> c.tp == 0
    ensures m.precision == 0.0 <==> c.tp == 0
    ensures m.specificity == 0.0 <==> c.tn == 0
    ensures m.accuracy == 0.0 <==> c.tp + c.tn == 0
    // the g-mean is the geometric mean of sensitivity and specificity when
    // the square-root routine is exact there
    ensures m.gMean == sqrt(GMeanSquare(m.sensitivity, m.specificity))
    ensures IsSquareRoot(m.gMean, GMeanSquare(m.sensitivity, m.specificity)) ==> m.gMean < 1.0
  {
    var accuracy := Ratio(c.tp + c.tn, c.tp + c.tn + c.fp + c.fn);
    var sensitivity := Ratio(c.tp, c.tp + c.fn);
    var specificity := Ratio(c.tn, c.fp + c.tn);
    var precision := Ratio(c.tp, c.tp + c.fp);
    var recall := sensitivity;
    var iou := Ratio(c.tp, c.tp + c.fp + c.fn);
    var f1 := F1(precision, recall);
    var square := GMeanSquare(sensitivity, specificity);
    var gMean := sqrt(square);
    RatioAntitone(c.tp, c.tp + c.fp, c.tp + c.fp + c.fn);
    RatioAntitone(c.tp, c.tp + c.fn, c.tp + c.fp + c.fn);
    RootBelowOne(gMean, square);
    MetricVector(iou, f1, gMean, accuracy, sensitivity, specificity, precision, recall)
  }

  /** The metric vector of a segmentation against its label, in reporting
      order: IOU, F1, G-mean, Accuracy, Sensitivity, Specificity, Precision,
      Recall. */
  function Metrics(seg: seq<int>, labels: seq<int>, sqrt: real -> real): (r: seq<real>)
    requires |seg| == |labels|
    ensures |r| == Width
    // every entry but the g-mean lies in [0, 1)
    ensures forall j :: 0 <= j < Width && j != 2 ==> 0.0 <= r[j] < 1.0
    // recall (last) equals sensitivity (fifth)
    ensures r[7] == r[4]
    // IOU (first) is at most precision (seventh) and sensitivity (fifth)
    ensures r[0] <= r[6] && r[0] <= r[4]
    // F1 (second) is the harmonic score of precision and recall
    ensures r[1] == F1(r[6], r[7])
    // the g-mean (third) is the root of sensitivity times specificity (sixth)
    ensures r[2] == sqrt(GMeanSquare(r[4], r[5]))
    ensures IsSquareRoot(r[2], GMeanSquare(r[4], r[5])) ==> r[2] < 1.0
    // the ratios, in terms of the confusion matrix of seg against labels:
    // IOU, accuracy, sensitivity, specificity, and precision as the true
    // positives over the mask's mass pixels
    ensures var c := Tally(seg, labels);
      && r[0] == Ratio(c.tp, c.tp + c.fp + c.fn)
      && r[3] == Ratio(c.tp + c.tn, c.Total())
      && r[4] == Ratio(c.tp, c.tp + c.fn)
      && r[5] == Ratio(c.tn, c.fp + c.tn)
      && r[6] == Ratio(c.tp, Count(seg, Mass))
    // which entries vanish
    ensures var c := Tally(seg, labels);
      && (r[0] == 0.0 <==> c.tp == 0)
      && (r[3] == 0.0 <==> c.tp + c.tn == 0)
      && (r[5] == 0.0 <==> c.tn == 0)
  {
    var m := FromCounts(Tally(seg, labels), sqrt);
    m.AsSeq()
  }

  /** The roles of the four counts in the ratios. Precision is sensitivity
      with false positives and false negatives exchanged, and specificity is
      sensitivity with the positive and negative classes exchanged.
      Sensitivity ignores false positives and true negatives, and IOU
      ignores true negatives. */
  lemma CountRoles(tp: nat, fp: nat, tn: nat, fn: nat, fp': nat, tn': nat, sqrt: real -> real)
    ensures FromCounts(Counts(tp, fp, tn, fn), sqrt).precision
            == FromCounts(Counts(tp, fn, tn, fp), sqrt).sensitivity
    ensures FromCounts(Counts(tp, fp, tn, fn), sqrt).specificity
            == FromCounts(Counts(tn, fn, tp, fp), sqrt).sensitivity
    ensures FromCounts(Counts(tp, fp, tn, fn), sqrt).sensitivity
            == FromCounts(Counts(tp, fp', tn', fn), sqrt).sensitivity
    ensures FromCounts(Counts(tp, fp, tn, fn), sqrt).iou
            == FromCounts(Counts(tp, fp, tn', fn), sqrt).iou
  {
  }

  /** Errors cost score: with a true positive, more false negatives lower
      sensitivity; with any correct pixel, more false positives or more
      false negatives lower accuracy. */
  lemma ErrorsLowerScores(tp: nat, fp: nat, tn: nat, fn: nat, more: nat, sqrt: real -> real)
    requires more > 0
    ensures tp > 0 ==> FromCounts(Counts(tp, fp, tn, fn + more), sqrt).sensitivity
                       < FromCounts(Counts(tp, fp, tn, fn), sqrt).sensitivity
    ensures tp + tn > 0 ==> FromCounts(Counts(tp, fp + more, tn, fn), sqrt).accuracy
                            < FromCounts(Counts(tp, fp, tn, fn), sqrt).accuracy
    ensures tp + tn > 0 ==> FromCounts(Counts(tp, fp, tn, fn + more), sqrt).accuracy
                            < FromCounts(Counts(tp, fp, tn, fn), sqrt).accuracy
  {
    if tp > 0 {
      RatioStrictAntitone(tp, tp + fn, tp + fn + more);
    }
    if tp + tn > 0 {
      RatioStrictAntitone(tp + tn, tp + tn + fp + fn, tp + tn + fp + fn + more);
    }
  }

  /** For an aligned segmentation, sensitivity is the true positives over
      the pixels labelled mass and specificity the true negatives over the
      pixels labelled tissue. */
  lemma MetricsOfAligned(seg: seq<int>, labels: seq<int>, sqrt: real -> real)
    requires Aligned(seg, labels)
    ensures var c := Tally(seg, labels);
      var r := Metrics(seg, labels, sqrt);
      && r[4] == Ratio(c.tp, Count(labels, Mass))
      && r[5] == Ratio(c.tn, Count(labels, Tissue))
  {
    TallyAligned(seg, labels);
    var c := Tally(seg, labels);
    var r := Metrics(seg, labels, sqrt);
    assert r[4] == Ratio(c.tp, c.tp + c.fn);
    assert r[5] == Ratio(c.tn, c.fp + c.tn);
  }

  /** Post-processing a three-valued label gives an aligned segmentation,
      so the metrics of its mask have the denominators above. */
  lemma MetricsOfPost(logits: seq<real>, labels: seq<int>, threshold: real, sqrt: real -> real)
    requires |logits| == |labels| && IsMask(labels)
    ensures Aligned(Post(logits, labels, threshold), labels)
    ensures var seg := Post(logits, labels, threshold);
      var c := Tally(seg, labels);
      var r := Metrics(seg, labels, sqrt);
      && r[4] == Ratio(c.tp, Count(labels, Mass))
      && r[5] == Ratio(c.tn, Count(labels, Tissue))
  {
    MetricsOfAligned(Post(logits, labels, threshold), labels, sqrt);
  }
}
