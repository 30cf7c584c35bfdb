/** Single-channel images and the pixel counting they need.

    An image of `rows` by `cols` pixels keeps its shape and its pixels in
    row-major order. Post-processing and the metrics are elementwise over
    two images of one shape, so they work on the flattened pixel
    sequences; the shape itself matters only when logits and label are
    checked against each other. */
module Pixels {

  /** A 2D image: its shape and its pixels in row-major order. */
  datatype Grid<T> = Grid(rows: nat, cols: nat, pixels: seq<T>)

  /** Two images have the same shape and the same number of pixels. A grid
      value does not itself tie its pixel count to rows times columns, so
      the count is compared as well. */
  predicate SameShape<S, T>(a: Grid<S>, b: Grid<T>) {
    a.rows == b.rows && a.cols == b.cols && |a.pixels| == |b.pixels|
  }

  /** Mask value for pixels outside the breast area. */
  const Outside: int := 0
  /** Mask value for breast tissue (the background class). */
  const Tissue: int := 127
  /** Mask value for a mass (the foreground class). */
  const Mass: int := 255

  /** Every pixel holds one of the three admissible mask values. */
  predicate IsMask(s: seq<int>) {
    forall i :: 0 <= i < |s| ==> s[i] == Outside || s[i] == Tissue || s[i] == Mass
  }

  /** The number of pixels of `s` equal to `v`. */
  function Count(s: seq<int>, v: int): (r: nat)
    ensures r <= |s|
    ensures r == |s| <==> forall i :: 0 <= i < |s| ==> s[i] == v
    ensures r == 0 <==> forall i :: 0 <= i < |s| ==> s[i] != v
  {
    if |s| == 0 then 0
    else (if s[0] == v then 1 else 0) + Count(s[1..], v)
  }

  /** If every pixel equal to `v` in `a` is also `v` in `b`, then `b` has at
      least as many `v` pixels as `a`. */
  lemma {:induction false} CountDominated(a: seq<int>, b: seq<int>, v: int)
    requires |a| == |b|
    requires forall i :: 0 <= i < |a| && a[i] == v ==> b[i] == v
    ensures Count(a, v) <= Count(b, v)
  {
    if |a| > 0 {
      assert forall i :: 0 <= i < |a[1..]| && a[1..][i] == v ==> b[1..][i] == v by {
        forall i | 0 <= i < |a[1..]| && a[1..][i] == v
          ensures b[1..][i] == v
        {
          assert a[1..][i] == a[i + 1];
        }
      }
      CountDominated(a[1..], b[1..], v);
    }
  }

  /** A mask splits its pixels into the three admissible values. */
  lemma {:induction false} MaskCountsPartition(s: seq<int>)
    requires IsMask(s)
    ensures Count(s, Outside) + Count(s, Tissue) + Count(s, Mass) == |s|
  {
    if |s| > 0 {
      assert IsMask(s[1..]) by {
        forall i | 0 <= i < |s[1..]|
          ensures s[1..][i] == Outside || s[1..][i] == Tissue || s[1..][i] == Mass
        {
          assert s[1..][i] == s[i + 1];
        }
      }
      MaskCountsPartition(s[1..]);
    }
  }
}
