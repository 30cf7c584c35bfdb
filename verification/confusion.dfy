/** The confusion matrix of a segmentation against its label.

    The four counts are computed, as in val.py, by four independent
    elementwise comparisons; no explicit breast-area mask is applied.
    Pixels whose segmentation is outside take part in none of them. */
module Confusion {
  import opened Pixels

  /** Confusion-matrix counts. */
  datatype Counts = Counts(tp: nat, fp: nat, tn: nat, fn: nat) {
    /** The number of pixels the matrix classifies. */
    function Total(): nat {
      tp + fp + tn + fn
    }
  }

  /** The number of pixels where the segmentation is `sv` and the label is `lv`. */
  function CountMatch(seg: seq<int>, labels: seq<int>, sv: int, lv: int): nat
    requires |seg| == |labels|
  {
    if |seg| == 0 then 0
    else (if seg[0] == sv && labels[0] == lv then 1 else 0)
         + CountMatch(seg[1..], labels[1..], sv, lv)
  }

  /** The number of pixels where the segmentation is `sv` and the label is not `lv`. */
  function CountMiss(seg: seq<int>, labels: seq<int>, sv: int, lv: int): nat
    requires |seg| == |labels|
  {
    if |seg| == 0 then 0
    else (if seg[0] == sv && labels[0] != lv then 1 else 0)
         + CountMiss(seg[1..], labels[1..], sv, lv)
  }

  /** Matches and misses of segmentation value `sv` together are all the
      `sv` pixels; the matches are at most the `lv` labels and the misses
      at most the other labels. */
  lemma {:induction false} MatchMissSplit(seg: seq<int>, labels: seq<int>, sv: int, lv: int)
    requires |seg| == |labels|
    ensures CountMatch(seg, labels, sv, lv) + CountMiss(seg, labels, sv, lv) == Count(seg, sv)
    ensures CountMatch(seg, labels, sv, lv) <= Count(labels, lv)
    ensures CountMiss(seg, labels, sv, lv) <= |labels| - Count(labels, lv)
  {
    if |seg| > 0 {
      MatchMissSplit(seg[1..], labels[1..], sv, lv);
    }
  }

  /** Match and miss counts depend only on the labels of the `sv` pixels. */
  lemma {:induction false} MatchMissLocal(seg: seq<int>, l1: seq<int>, l2: seq<int>, sv: int, lv: int)
    requires |seg| == |l1| == |l2|
    requires forall i :: 0 <= i < |seg| && seg[i] == sv ==> l1[i] == l2[i]
    ensures CountMatch(seg, l1, sv, lv) == CountMatch(seg, l2, sv, lv)
    ensures CountMiss(seg, l1, sv, lv) == CountMiss(seg, l2, sv, lv)
  {
    if |seg| > 0 {
      assert forall i :: 0 <= i < |seg[1..]| && seg[1..][i] == sv ==> l1[1..][i] == l2[1..][i] by {
        forall i | 0 <= i < |seg[1..]| && seg[1..][i] == sv
          ensures l1[1..][i] == l2[1..][i]
        {
          assert seg[1..][i] == seg[i + 1];
        }
      }
      MatchMissLocal(seg[1..], l1[1..], l2[1..], sv, lv);
    }
  }

  /** The confusion matrix of a segmentation against its label. */
  function Tally(seg: seq<int>, labels: seq<int>): (c: Counts)
    requires |seg| == |labels|
    // every mass pixel is a true or a false positive
    ensures c.tp + c.fp == Count(seg, Mass)
    // every tissue pixel is a true or a false negative
    ensures c.tn + c.fn == Count(seg, Tissue)
    // a true positive needs a mass label, a true negative a tissue label
    ensures c.tp <= Count(labels, Mass) && c.tn <= Count(labels, Tissue)
    // a false positive needs a non-mass label, a false negative a non-tissue label
    ensures c.fp <= |labels| - Count(labels, Mass)
    ensures c.fn <= |labels| - Count(labels, Tissue)
  {
    MatchMissSplit(seg, labels, Mass, Mass);
    MatchMissSplit(seg, labels, Tissue, Tissue);
    Counts(CountMatch(seg, labels, Mass, Mass), CountMiss(seg, labels, Mass, Mass),
           CountMatch(seg, labels, Tissue, Tissue), CountMiss(seg, labels, Tissue, Tissue))
  }

  /** A three-valued segmentation of a three-valued label that is outside
      exactly where the label is, as post-processing makes it. */
  predicate Aligned(seg: seq<int>, labels: seq<int>) {
    && |seg| == |labels|
    && IsMask(seg) && IsMask(labels)
    && forall i :: 0 <= i < |seg| ==> (seg[i] == Outside <==> labels[i] == Outside)
  }

  /** On an aligned segmentation every mass label is a true positive or a
      false negative, and every tissue label a true negative or a false
      positive. */
  lemma {:induction false} AlignedCounts(seg: seq<int>, labels: seq<int>)
    requires Aligned(seg, labels)
    ensures CountMatch(seg, labels, Mass, Mass) + CountMiss(seg, labels, Tissue, Tissue)
            == Count(labels, Mass)
    ensures CountMatch(seg, labels, Tissue, Tissue) + CountMiss(seg, labels, Mass, Mass)
            == Count(labels, Tissue)
  {
    if |seg| > 0 {
      assert Aligned(seg[1..], labels[1..]) by {
        forall i | 0 <= i < |seg[1..]|
          ensures seg[1..][i] == seg[i + 1] && labels[1..][i] == labels[i + 1]
        {
        }
      }
      AlignedCounts(seg[1..], labels[1..]);
      assert seg[0] == Outside || seg[0] == Tissue || seg[0] == Mass;
      assert labels[0] == Outside || labels[0] == Tissue || labels[0] == Mass;
    }
  }

  /** On an aligned segmentation, TP + FN is the number of mass labels and
      TN + FP the number of tissue labels: the denominators of sensitivity
      and specificity count the label's classes. */
  lemma TallyAligned(seg: seq<int>, labels: seq<int>)
    requires Aligned(seg, labels)
    ensures Tally(seg, labels).tp + Tally(seg, labels).fn == Count(labels, Mass)
    ensures Tally(seg, labels).tn + Tally(seg, labels).fp == Count(labels, Tissue)
  {
    AlignedCounts(seg, labels);
  }

  /** On a three-valued mask, the classified pixels are exactly the pixels
      that are not outside: outside pixels take part in none of the counts. */
  lemma TallyPartition(seg: seq<int>, labels: seq<int>)
    requires |seg| == |labels|
    requires IsMask(seg)
    ensures Tally(seg, labels).Total() + Count(seg, Outside) == |seg|
  {
    MaskCountsPartition(seg);
  }

  /** The labels of outside pixels do not affect the confusion matrix. */
  lemma TallyIgnoresOutside(seg: seq<int>, l1: seq<int>, l2: seq<int>)
    requires |seg| == |l1| == |l2|
    requires forall i :: 0 <= i < |seg| && seg[i] != Outside ==> l1[i] == l2[i]
    ensures Tally(seg, l1) == Tally(seg, l2)
  {
    MatchMissLocal(seg, l1, l2, Mass, Mass);
    MatchMissLocal(seg, l1, l2, Tissue, Tissue);
  }
}
