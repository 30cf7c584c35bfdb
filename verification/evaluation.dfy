/** The per-threshold evaluation loop and the sweep over all thresholds.

    Image and label files are modelled as already loaded: a manifest is the
    list of its examples in read order. The segmentation model is the
    parameter `predict`, from an image to an image of logits. */
module Evaluation {
  import opened Results
  import opened Pixels
  import opened Mask
  import opened Scores
  import opened Averaging

  /** One validation example: an image and its ground-truth label. */
  datatype Example = Example(image: Grid<int>, labels: Grid<int>)

  /** Why an evaluation pass is abandoned. */
  datatype EvalError =
    | EmptyManifest          // no example to average over
    | ShapeMismatch(index: nat)  // the logits of this example do not match its label's shape

  /** The model's logits for the example have the label's shape, so that
      the label can index them. */
  predicate Fits(e: Example, predict: Grid<int> -> Grid<real>) {
    SameShape(predict(e.image), e.labels)
  }

  predicate AllFit(es: seq<Example>, predict: Grid<int> -> Grid<real>) {
    forall i :: 0 <= i < |es| ==> Fits(es[i], predict)
  }

  /** The position of the first example whose logits do not fit its label. */
  function FirstMismatch(es: seq<Example>, predict: Grid<int> -> Grid<real>): (r: Option<nat>)
    ensures r.None? <==> AllFit(es, predict)
    ensures r.Some? ==> r.value < |es| && !Fits(es[r.value], predict)
    ensures r.Some? ==> forall i :: 0 <= i < r.value ==> Fits(es[i], predict)
  {
    if |es| == 0 then None
    else if !Fits(es[0], predict) then Some(0)
    else match FirstMismatch(es[1..], predict)
      case None => None
      case Some(i) => Some(i + 1)
  }

  /** The error that abandons a pass over the manifest, if any. */
  function Validate(es: seq<Example>, predict: Grid<int> -> Grid<real>): (r: Option<EvalError>)
    ensures r.None? <==> |es| > 0 && AllFit(es, predict)
    ensures r == Some(EmptyManifest) <==> |es| == 0
    ensures r.Some? && r.value.ShapeMismatch? ==> FirstMismatch(es, predict) == Some(r.value.index)
  {
    if |es| == 0 then Some(EmptyManifest)
    else match FirstMismatch(es, predict)
      case None => None
      case Some(i) => Some(ShapeMismatch(i))
  }

  /** The metric vector of one example at one threshold. */
  function ExampleMetrics(e: Example, predict: Grid<int> -> Grid<real>, sqrt: real -> real,
                          threshold: real): (r: seq<real>)
    requires Fits(e, predict)
    ensures IsVector(r)
  {
    var segmentation := Post(predict(e.image).pixels, e.labels.pixels, threshold);
    Metrics(segmentation, e.labels.pixels, sqrt)
  }

  /** The metric vectors of all examples at one threshold, in manifest order. */
  function PerExample(es: seq<Example>, predict: Grid<int> -> Grid<real>, sqrt: real -> real,
                      threshold: real): (vs: seq<seq<real>>)
    requires AllFit(es, predict)
    ensures |vs| == |es| && AllVectors(vs)
  {
    seq(|es|, i requires 0 <= i < |es| => ExampleMetrics(es[i], predict, sqrt, threshold))
  }

  /** Properties every per-example vector shares carry over to the mean. */
  lemma MeanOfExamples(es: seq<Example>, predict: Grid<int> -> Grid<real>, sqrt: real -> real,
                       threshold: real)
    requires |es| > 0 && AllFit(es, predict)
    ensures var m := Mean(PerExample(es, predict, sqrt, threshold));
      && (forall j :: 0 <= j < Width && j != 2 ==> 0.0 <= m[j] < 1.0)
      && m[7] == m[4]
      && m[0] <= m[6] && m[0] <= m[4]
  {
    var vs := PerExample(es, predict, sqrt, threshold);
    forall j | 0 <= j < Width && j != 2
      ensures 0.0 <= Mean(vs)[j] < 1.0
    {
      MeanBounded(vs, j);
    }
    MeanMonotone(vs, 7, 4);
    MeanMonotone(vs, 4, 7);
    MeanMonotone(vs, 0, 6);
    MeanMonotone(vs, 0, 4);
  }

  /** Adding example `k` to the sum of the first `k` examples' vectors. */
  lemma ColumnSumStep(es: seq<Example>, k: nat, predict: Grid<int> -> Grid<real>,
                      sqrt: real -> real, threshold: real)
    requires k < |es| && AllFit(es[..k], predict) && Fits(es[k], predict)
    ensures AllFit(es[..k + 1], predict)
    ensures forall j :: 0 <= j < Width ==>
              ColumnSum(PerExample(es[..k + 1], predict, sqrt, threshold), j)
              == ColumnSum(PerExample(es[..k], predict, sqrt, threshold), j)
                 + ExampleMetrics(es[k], predict, sqrt, threshold)[j]
  {
    assert es[..k + 1][..k] == es[..k];
    assert AllFit(es[..k + 1], predict);
    var vs := PerExample(es[..k + 1], predict, sqrt, threshold);
    assert vs[..k] == PerExample(es[..k], predict, sqrt, threshold);
  }

  /** An example that does not fit, after a prefix that does, is the first
      mismatch. */
  lemma MismatchAt(es: seq<Example>, k: nat, predict: Grid<int> -> Grid<real>)
    requires k < |es| && AllFit(es[..k], predict) && !Fits(es[k], predict)
    ensures FirstMismatch(es, predict) == Some(k)
  {
    forall i | 0 <= i < k
      ensures Fits(es[i], predict)
    {
      assert es[..k][i] == es[i];
    }
  }

  /** The accumulation loop of one threshold's pass: every example's metric
      vector is added, in manifest order, into a zero accumulator. It stops
      at the first example whose logits do not fit its label. */
  method Accumulate(es: seq<Example>, predict: Grid<int> -> Grid<real>,
                    sqrt: real -> real, threshold: real)
    returns (r: Result<seq<real>, nat>)
    ensures r.Failure? <==> !AllFit(es, predict)
    ensures r.Failure? ==> FirstMismatch(es, predict) == Some(r.error)
    ensures r.Success? ==> IsVector(r.value)
    ensures r.Success? ==> forall j :: 0 <= j < Width ==>
              r.value[j] == ColumnSum(PerExample(es, predict, sqrt, threshold), j)
  {
    var acc := Zero();
    var k := 0;
    while k < |es|
      invariant 0 <= k <= |es|
      invariant AllFit(es[..k], predict)
      invariant IsVector(acc)
      invariant forall j :: 0 <= j < Width ==>
                  acc[j] == ColumnSum(PerExample(es[..k], predict, sqrt, threshold), j)
    {
      var e := es[k];
      var logits := predict(e.image);
      if !SameShape(logits, e.labels) {
        MismatchAt(es, k, predict);
        return Failure(k);
      }
      var metrics := ExampleMetrics(e, predict, sqrt, threshold);
      ColumnSumStep(es, k, predict, sqrt, threshold);
      acc := Add(acc, metrics);
      k := k + 1;
    }
    assert es[..|es|] == es;
    r := Success(acc);
  }

  /** One threshold's pass: accumulate every example's metric vector, then
      divide by the number of examples. */
  method EvaluateThreshold(es: seq<Example>, predict: Grid<int> -> Grid<real>,
                           sqrt: real -> real, threshold: real)
    returns (r: Result<seq<real>, EvalError>)
    ensures r.Failure? <==> Validate(es, predict).Some?
    ensures r.Failure? ==> Validate(es, predict) == Some(r.error)
    ensures r.Success? ==> |es| > 0 && AllFit(es, predict)
    ensures r.Success? ==> r.value == Mean(PerExample(es, predict, sqrt, threshold))
    // the reported means keep the per-example bounds and relations
    ensures r.Success? ==> IsVector(r.value)
    ensures r.Success? ==> forall j :: 0 <= j < Width && j != 2 ==> 0.0 <= r.value[j] < 1.0
    ensures r.Success? ==> r.value[7] == r.value[4]
    ensures r.Success? ==> r.value[0] <= r.value[6] && r.value[0] <= r.value[4]
  {
    var sum := Accumulate(es, predict, sqrt, threshold);
    if sum.Failure? {
      return Failure(ShapeMismatch(sum.error));
    }
    if |es| == 0 {
      return Failure(EmptyManifest);
    }
    r := Success(Divide(sum.value, |es|));
    MeanOfExamples(es, predict, sqrt, threshold);
  }

  /** The sweep: one mean metric vector per threshold, in threshold order. */
  method Sweep(es: seq<Example>, predict: Grid<int> -> Grid<real>, sqrt: real -> real,
               thresholds: seq<real>)
    returns (r: Result<seq<seq<real>>, EvalError>)
    // an empty manifest fails before any threshold, as the random choice of
    // an example does; any other error comes from the first threshold's pass
    ensures r.Failure? <==> |es| == 0 || (|thresholds| > 0 && Validate(es, predict).Some?)
    ensures r.Failure? ==> Validate(es, predict) == Some(r.error)
    ensures r.Success? ==> |es| > 0
    ensures r.Success? && |thresholds| > 0 ==> AllFit(es, predict)
    ensures r.Success? ==> |r.value| == |thresholds|
    ensures r.Success? ==> forall i :: 0 <= i < |thresholds| ==>
              r.value[i] == Mean(PerExample(es, predict, sqrt, thresholds[i]))
  {
    if |es| == 0 {
      return Failure(EmptyManifest);
    }
    var means: seq<seq<real>> := [];
    var i := 0;
    while i < |thresholds|
      invariant 0 <= i <= |thresholds|
      invariant |means| == i
      invariant i > 0 ==> AllFit(es, predict)
      invariant forall t :: 0 <= t < i ==>
                  means[t] == Mean(PerExample(es, predict, sqrt, thresholds[t]))
    {
      var m := EvaluateThreshold(es, predict, sqrt, thresholds[i]);
      if m.Failure? {
        return Failure(m.error);
      }
      forall t | 0 <= t < i + 1
        ensures (means + [m.value])[t] == Mean(PerExample(es, predict, sqrt, thresholds[t]))
      {
        if t < i {
          assert (means + [m.value])[t] == means[t];
        }
      }
      means := means + [m.value];
      i := i + 1;
    }
    r := Success(means);
  }
}
