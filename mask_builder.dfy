/** Mask Builder: the adaptive threshold of `optimized_preprocess`
    (traffic_visualization.py:91-95). The 70th and 85th percentiles come
    from numpy and are inputs here; the morphological opening that follows
    (lines 98-99) is not modelled, so the detector takes its mask as given. */
module MaskBuilder {
  import opened Common

  /** Share of the p70..p85 gap added to p70. */
  const BlendWeight: real := 0.2

  /** `p70 + 0.2 * (p85 - p70)`: a cutoff between the two percentiles,
      nearer the lower one. No division, so no degenerate case. */
  function Threshold(p70: real, p85: real): (th: real)
    ensures p70 <= p85 ==> p70 <= th <= p85 && th - p70 <= p85 - th
    ensures p85 <= p70 ==> p85 <= th <= p70
    ensures p70 == p85 ==> th == p70
  {
    p70 + BlendWeight * (p85 - p70)
  }

  /** `filtered_data > threshold`, cell by cell. */
  function Binarize(field: seq<seq<real>>, th: real): (mask: seq<seq<bool>>)
    ensures |mask| == |field|
    ensures forall t :: 0 <= t < |field| ==> |mask[t]| == |field[t]|
  {
    seq(|field|, t requires 0 <= t < |field| => seq(|field[t]|, p requires 0 <= p < |field[t]| => field[t][p] > th))
  }

  /** The mask of `optimized_preprocess` before the opening. */
  function ThresholdMask(field: seq<seq<real>>, p70: real, p85: real): seq<seq<bool>>
  {
    Binarize(field, Threshold(p70, p85))
  }

  /** A cell is set exactly when it lies strictly above the cutoff, so with
      ordered percentiles every cell above p85 is set and no cell at or
      below p70 is. */
  lemma MaskCell(field: seq<seq<real>>, p70: real, p85: real, t: nat, p: nat)
    requires t < |field| && p < |field[t]|
    ensures ThresholdMask(field, p70, p85)[t][p] <==> field[t][p] > Threshold(p70, p85)
    ensures p70 <= p85 && field[t][p] > p85 ==> ThresholdMask(field, p70, p85)[t][p]
    ensures p70 <= p85 && field[t][p] <= p70 ==> !ThresholdMask(field, p70, p85)[t][p]
  {
  }

  ghost predicate IsUniform(field: seq<seq<real>>, c: real)
  {
    forall t, p :: 0 <= t < |field| && 0 <= p < |field[t]| ==> field[t][p] == c
  }

  /** What any percentile of the field's values satisfies: some value lies
      at or below it and some value at or above it. */
  ghost predicate WithinValues(field: seq<seq<real>>, v: real)
  {
    (exists t, p :: 0 <= t < |field| && 0 <= p < |field[t]| && field[t][p] <= v) &&
    (exists t, p :: 0 <= t < |field| && 0 <= p < |field[t]| && field[t][p] >= v)
  }

  /** On a uniform field both percentiles equal the common value, the
      cutoff equals it too, and since the test is a strict `>` the mask is
      all false. */
  lemma UniformFieldGivesEmptyMask(field: seq<seq<real>>, c: real, p70: real, p85: real)
    requires IsUniform(field, c)
    requires WithinValues(field, p70) && WithinValues(field, p85)
    ensures p70 == c && p85 == c && Threshold(p70, p85) == c
    ensures forall t, p :: 0 <= t < |field| && 0 <= p < |field[t]| ==> !ThresholdMask(field, p70, p85)[t][p]
  {
    var t1, q1 :| 0 <= t1 < |field| && 0 <= q1 < |field[t1]| && field[t1][q1] <= p70;
    var t2, q2 :| 0 <= t2 < |field| && 0 <= q2 < |field[t2]| && field[t2][q2] >= p70;
    var t3, q3 :| 0 <= t3 < |field| && 0 <= q3 < |field[t3]| && field[t3][q3] <= p85;
    var t4, q4 :| 0 <= t4 < |field| && 0 <= q4 < |field[t4]| && field[t4][q4] >= p85;
    assert field[t1][q1] == c && field[t2][q2] == c && field[t3][q3] == c && field[t4][q4] == c;
  }
}
