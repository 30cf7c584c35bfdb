/** The mask post-processor: per-pixel logits, the ground-truth label and a
    threshold become a three-valued segmentation mask.

    The mask is built as val.py builds it: a fill with the tissue value,
    then an assignment of the mass value where the logit reaches the
    threshold, then an assignment of the outside value where the label is
    outside the breast area. The later pass overrides the earlier one. */
module Mask {
  import opened Pixels

  /** A mask of `n` pixels, all equal to `v`. */
  function Fill(n: nat, v: int): seq<int> {
    seq(n, _ => v)
  }

  /** Boolean indexing `s[selected] = v`: the pixels picked by `selected`
      become `v`, the others keep their value. */
  function Assign(s: seq<int>, selected: seq<bool>, v: int): seq<int>
    requires |selected| == |s|
  {
    seq(|s|, i requires 0 <= i < |s| => if selected[i] then v else s[i])
  }

  /** The elementwise comparison `logits >= threshold`. */
  function AtLeast(logits: seq<real>, threshold: real): seq<bool> {
    seq(|logits|, i requires 0 <= i < |logits| => logits[i] >= threshold)
  }

  /** The elementwise comparison `labels == v`. */
  function EqualTo(labels: seq<int>, v: int): seq<bool> {
    seq(|labels|, i requires 0 <= i < |labels| => labels[i] == v)
  }

  /** The segmentation for one threshold. Logits and label must have the
      same shape: boolean indexing with a mask of another shape raises. */
  function Post(logits: seq<real>, labels: seq<int>, threshold: real): (r: seq<int>)
    requires |logits| == |labels|
    ensures |r| == |logits|
    ensures IsMask(r)
    // a pixel outside the breast area is outside, whatever its logit
    ensures forall i :: 0 <= i < |r| && labels[i] == Outside ==> r[i] == Outside
    // inside the breast area the threshold decides between mass and tissue
    ensures forall i :: 0 <= i < |r| && labels[i] != Outside ==>
              (r[i] == Mass <==> logits[i] >= threshold) &&
              (r[i] == Tissue <==> logits[i] < threshold)
    // a pixel is outside exactly when its label is
    ensures forall i :: 0 <= i < |r| ==> (r[i] == Outside <==> labels[i] == Outside)
  {
    var tissue := Fill(|logits|, Tissue);
    var thresholded := Assign(tissue, AtLeast(logits, threshold), Mass);
    Assign(thresholded, EqualTo(labels, Outside), Outside)
  }

  /** Raising the threshold never adds mass pixels: for fixed logits and
      label, the number of mass pixels is antitone in the threshold. */
  lemma PostMassAntitone(logits: seq<real>, labels: seq<int>, lower: real, higher: real)
    requires |logits| == |labels|
    requires lower <= higher
    ensures Count(Post(logits, labels, higher), Mass) <= Count(Post(logits, labels, lower), Mass)
  {
    var hi := Post(logits, labels, higher);
    var lo := Post(logits, labels, lower);
    assert forall i :: 0 <= i < |hi| && hi[i] == Mass ==> lo[i] == Mass;
    CountDominated(hi, lo, Mass);
  }

  /** Dually, raising the threshold never removes tissue pixels. */
  lemma PostTissueMonotone(logits: seq<real>, labels: seq<int>, lower: real, higher: real)
    requires |logits| == |labels|
    requires lower <= higher
    ensures Count(Post(logits, labels, lower), Tissue) <= Count(Post(logits, labels, higher), Tissue)
  {
    var hi := Post(logits, labels, higher);
    var lo := Post(logits, labels, lower);
    assert forall i :: 0 <= i < |lo| && lo[i] == Tissue ==> hi[i] == Tissue;
    CountDominated(lo, hi, Tissue);
  }
}
