# Threshold-sweep evaluation of a breast-mass segmentation model

This project models the evaluation logic of `model/val.py` in Dafny and proves properties of that model. The script scores a trained segmentation network on a validation set, one decision threshold at a time. It has three parts:

- **Post-processing** (`Mask.Post`). Per-pixel logits, the ground-truth label and a threshold give a three-valued mask. Every pixel starts as 127 (breast tissue). It becomes 255 (mass) where the logit reaches the threshold. It becomes 0 where the label is 0 (outside the breast area), and this last assignment overrides the threshold decision.
- **Metrics** (`Confusion.Tally`, `Scores.FromCounts`, `Scores.Metrics`). The confusion matrix (TP, FP, TN, FN) is counted by elementwise comparison of mask and label. Seven ratios are derived from it, each with ε = 1e-7 added to its denominator, and the g-mean is the square root of sensitivity times specificity, with no ε. The eight metrics are returned in the order IOU, F1, G-mean, Accuracy, Sensitivity, Specificity, Precision, Recall.
- **The evaluation loop** (`Evaluation.Accumulate`, `Evaluation.EvaluateThreshold`, `Evaluation.Sweep`). For each threshold, every example's metric vector is added into a zero accumulator and the sum is divided by the number of examples.

Modelling choices:

- Images and labels are `Pixels.Grid` values: a shape (rows, columns) and the pixels in row-major order. Post-processing and the metrics are elementwise, so they work on the flattened pixels: labels and masks are `seq<int>` and logits are `seq<real>`.
- Ratios are exact over `real`, with ε = 0.0000001.
- The network is the parameter `predict`, from an image to a grid of logits. `np.sqrt` is the parameter `sqrt`. Every g-mean property holds whenever `sqrt` returns the exact root at its argument (`RealArith.IsSquareRoot`).
- The manifest is the list of its already-loaded examples, in read order.
- A pass is abandoned, as in the script, when the logits of an example do not have its label's shape: same rows, same columns. The boolean indexing at line 36 raises there, also when the two shapes have the same pixel count. The model returns `ShapeMismatch(i)` for the first such example `i`.
- An empty manifest is the error `EmptyManifest`. In the script, `np.random.randint(0)` (line 95) raises before any threshold is evaluated, whatever the number of thresholds. The division at line 142 would otherwise divide by zero.
- For an image whose label is entirely 0, the script's counts are all zero and every ratio is exactly 0. It is not merely near zero: ε only keeps each denominator positive.

Module layout: `Results` (Option/Result), `RealArith` (real-arithmetic facts and the exact square root), `Pixels` (image grids, mask values, pixel counting), `Mask` (post-processing), `Confusion` (confusion matrix), `Scores` (metric formulas), `Averaging` (mean of metric vectors), `Evaluation` (per-threshold pass and sweep), `Thresholds` (linearly spaced values), `Scenarios` (whole-image cases).

## Model

| member | source | states |
|---|---|---|
| Mask.Post | model/val.py:26-37 | the mask has the logits' length and only the values 0, 127, 255; a pixel whose label is 0 is 0 whatever its logit or the threshold; any other pixel is 255 exactly when its logit is at least the threshold and 127 exactly when it is below |
| Mask.PostMassAntitone | model/val.py:34-36 | for fixed logits and label, raising the threshold never increases the number of 255 pixels |
| Mask.PostTissueMonotone | model/val.py:34-36 | for fixed logits and label, raising the threshold never decreases the number of 127 pixels |
| Pixels.MaskCountsPartition | model/val.py:34-37 | the 0, 127 and 255 pixels of a three-valued mask together are all of its pixels |
| Confusion.MatchMissSplit | model/val.py:44-47 | the pixels with segmentation value v split into those whose label is w and those whose label is not; the first group is at most the number of w labels and the second at most the number of other labels |
| Confusion.Tally | model/val.py:43-47 | TP + FP is the number of 255 pixels of the mask; TN + FN is the number of 127 pixels; TP and TN are bounded by the 255 and 127 labels, FP and FN by the other labels |
| Confusion.TallyPartition | model/val.py:43-47 | on a three-valued mask the four counts add up to the number of pixels that are not 0: pixels of value 0 take part in none of the counts |
| Confusion.TallyIgnoresOutside | model/val.py:43-47 | the labels of mask pixels of value 0 do not affect the confusion matrix |
| Confusion.AlignedCounts | model/val.py:44-47 | on a three-valued segmentation that is 0 exactly where its three-valued label is, the 255-matches plus the 127-misses are the 255 labels, and the 127-matches plus the 255-misses are the 127 labels |
| Confusion.TallyAligned | model/val.py:43-47 | on such a segmentation TP + FN is the number of 255 labels and TN + FP the number of 127 labels |
| Scores.Ratio | model/val.py:41-57 | a count divided by a count plus ε is never negative, is zero exactly when the numerator is zero, and is below one when the numerator is at most the denominator count, so no division is by zero |
| Scores.RatioAntitone | model/val.py:52-57 | a larger denominator count gives a smaller ratio |
| Scores.RatioStrictAntitone | model/val.py:52-57 | with a positive numerator, a strictly larger denominator count gives a strictly smaller ratio |
| Scores.F1 | model/val.py:58 | F1 from precision and recall in [0, 1) lies in [0, 1) and is zero exactly when precision or recall is zero |
| Scores.FromCounts | model/val.py:49-62 | IOU, F1, accuracy, sensitivity, specificity, precision and recall lie in [0, 1); recall equals sensitivity; IOU is at most precision and at most sensitivity; IOU, F1, sensitivity and precision are zero exactly when TP is zero, specificity exactly when TN is, accuracy exactly when TP + TN is; the g-mean is the root of sensitivity times specificity and below one when the root is exact |
| Scores.CountRoles | model/val.py:50-57 | precision is sensitivity with FP and FN exchanged; specificity is sensitivity with the positive and negative classes exchanged; sensitivity does not depend on FP or TN; IOU does not depend on TN |
| Scores.ErrorsLowerScores | model/val.py:50-53 | with TP > 0, more false negatives strictly lower sensitivity; with TP + TN > 0, more false positives or more false negatives strictly lower accuracy |
| Scores.Metrics | model/val.py:39-64 | for a segmentation and its label with confusion matrix TP, FP, TN, FN, the vector has eight entries in the reporting order: IOU = TP/(TP+FP+FN+ε), F1 = the harmonic score of precision and recall, G-mean = the root of sensitivity times specificity, accuracy = (TP+TN)/(TP+FP+TN+FN+ε), sensitivity = TP/(TP+FN+ε), specificity = TN/(FP+TN+ε), precision = TP over the segmentation's 255 pixels plus ε, recall = sensitivity; all but the g-mean lie in [0, 1); IOU is at most precision and sensitivity; IOU is zero exactly when TP is, accuracy exactly when TP + TN is, specificity exactly when TN is |
| Scores.MetricsOfAligned | model/val.py:44-53 | for a three-valued segmentation that is 0 exactly where its three-valued label is, sensitivity is TP over the pixels labelled 255 and specificity is TN over the pixels labelled 127 |
| Scores.MetricsOfPost | model/val.py:26-53 | the mask post-processed from a three-valued label is such a segmentation, so its sensitivity and specificity have those denominators |
| Averaging.MeanOfIdentical | model/val.py:119-142 | averaging N ≥ 1 identical metric vectors gives back that vector |
| Averaging.MeanBounded | model/val.py:138-142 | an entry that lies in [0, 1) in every example's vector lies in [0, 1) in the mean |
| Averaging.MeanMonotone | model/val.py:138-142 | an order between two entries that holds in every example's vector holds in the mean |
| Averaging.ColumnSumConstant | model/val.py:138 | adding N copies of a vector into a zero accumulator gives N times its entries |
| Evaluation.FirstMismatch | model/val.py:122-135 | finds nothing exactly when every example's logits have its label's rows and columns; otherwise finds the first example whose shapes differ |
| Evaluation.Validate | model/val.py:95-142 | no error exactly when the manifest is non-empty and every example fits; the empty manifest is its own error; otherwise the error names the first mismatched example |
| Evaluation.MeanOfExamples | model/val.py:135-142 | the mean over a non-empty manifest keeps every entry but the g-mean in [0, 1), keeps recall equal to sensitivity, and keeps IOU at most precision and sensitivity |
| Evaluation.Accumulate | model/val.py:118-138 | the accumulation stops exactly when some example's shapes differ, reporting the first such example; otherwise each entry of the accumulator is the sum of that entry over every example's metric vector |
| Evaluation.EvaluateThreshold | model/val.py:117-142 | one threshold's pass fails exactly when the manifest is empty or an example's shapes differ, reporting that error; otherwise it returns the mean of the examples' metric vectors in manifest order, with the bounds and relations above |
| Evaluation.Sweep | model/val.py:95-149 | the sweep returns one mean vector per threshold, in threshold order, each the mean for that threshold; an empty manifest fails even with no thresholds; otherwise it fails, with the first mismatched example, exactly when there is a threshold and some example's shapes differ |
| Thresholds.Linspace | model/val.py:110 | num values; the first is start and, for two or more, the last is stop; for start ≤ stop they are non-decreasing and lie between start and stop; a degenerate range makes them all equal |
| Thresholds.SweepMassAntitone | model/val.py:110-135 | along a non-decreasing threshold sequence the number of 255 pixels of a fixed image never grows |
| Scenarios.AllMassScenario | model/val.py:34-47 | an image of mass labels whose logits all reach the threshold is all true positive: TP is the pixel count and FP, TN, FN are zero |
| Scenarios.PerfectDetection | model/val.py:50-57 | with only true positives, IOU, precision and recall are equal and within ε of one |
| Scenarios.AllTissueScenario | model/val.py:34-47 | an image of tissue labels whose logits are all below the threshold is all true negative: TN is the pixel count and TP, FP, FN are zero |
| Scenarios.PerfectRejection | model/val.py:50-58 | with only true negatives, specificity and accuracy are within ε of one, and sensitivity, precision, IOU and F1 are zero |
| Scenarios.AllOutsideScenario | model/val.py:34-47 | an image whose label is all 0 gives an all-0 mask and an empty confusion matrix |
| Scenarios.EmptyMatrix | model/val.py:41-59 | an empty confusion matrix gives zero for every ratio; ε keeps each denominator positive |

## Left out

- TensorFlow graph construction, session, checkpoint restore and logging (lines 72-88): foreign code. The network `model.model` is the parameter `predict`.
- Reading the CSV manifest, joining `data_dir` to paths, `scipy.misc.imread`, and the `print` report (lines 69-70, 97-100, 115, 124-129, 145-149): I/O. `csv_reader.line_num` (line 141) is taken to be the number of manifest entries, one line per row.
- The threshold sampler's random example choice, its `prediction.eval`, the sigmoid of the logit range and the inverse sigmoid of the probabilities (lines 95-107, 111): randomness, foreign calls and floating-point `exp`/`log`. Only `np.linspace` (line 110) is modelled, over reals; `Evaluation.Sweep` takes the thresholds as input.
- The logistic-loss pass (lines 151-163): `model.logistic_loss` is foreign code.
- The disabled log-uniform threshold strategy (lines 90-92): commented out.
- The return value of `main` (line 165): it returns the `metrics` function and the metric names and plays no part in the evaluation.
- Floating-point behaviour: every ratio is exact over `real`. The double nearest 1e-7 is modelled as exactly 1/10000000. The `uint8` mask dtype holds 0, 127 and 255 without wrap-around, so no truncation is modelled.
- Scores.FromCounts: the g-mean is `sqrt` applied to sensitivity times specificity; its bounds are proved only when `sqrt` returns the exact root there, since `np.sqrt` is a floating-point routine passed in as a parameter.
- Scores.Metrics: the same condition on `sqrt` applies to the g-mean entry.
- Scores.FromCounts: its own ensures do not name each ratio's denominator, which would only repeat its body. The denominators are stated in terms of the confusion matrix by `Scores.Metrics`, and the roles of the counts by `Scores.CountRoles` and `Scores.ErrorsLowerScores`.
- Mask.Post: requires logits and label of the same length; the script raises on a shape mismatch, which `Evaluation.EvaluateThreshold` models as the error `ShapeMismatch` by comparing rows and columns before the pixels are used.
