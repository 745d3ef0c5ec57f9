/** Field Reducer: collapses the frequency axis of a recording
    intensity[t][p][f] into a time x position field, as the first step of
    `optimized_preprocess` does (traffic_visualization.py:80-85). The
    median filter that follows (line 88) is not part of this model. */
module FieldReducer {
  import opened Common

  const FreqChannels: nat := 96
  /** Only this many leading channels are summed, to bound the cost. */
  const ChannelLimit: nat := 50

  /** FREQ_WEIGHTS: low channels carry heavy-vehicle signal, middle ones
      light-vehicle signal, high ones are damped as noise. The table starts
      as all ones, but the three slice assignments overwrite every entry. */
  function FreqWeight(f: nat): real
    requires f < FreqChannels
  {
    if f < 20 then 1.6 else if f < 40 then 1.4 else 0.4
  }

  /** A recording tensor of shape T x P x F. */
  ghost predicate IsTensor(stats: seq<seq<seq<real>>>, T: nat, P: nat, F: nat)
  {
    |stats| == T &&
    forall t :: 0 <= t < T ==>
      |stats[t]| == P && forall p :: 0 <= p < P ==> |stats[t][p]| == F
  }

  /** Number of channels the reduction reads out of F: min(50, F). */
  function ChannelsUsed(F: nat): (n: nat)
    ensures n <= F && n <= ChannelLimit && (n == F || n == ChannelLimit)
  {
    if F < ChannelLimit then F else ChannelLimit
  }

  /** Weighted sum of the first k channels of one cell. */
  function WeightedSum(c: seq<real>, k: nat): real
    requires k <= |c| && k <= FreqChannels
  {
    if k == 0 then 0.0 else WeightedSum(c, k - 1) + c[k - 1] * FreqWeight(k - 1)
  }

  /** The reduced value of one (t, p) cell. */
  function ReducedCell(c: seq<real>): real
  {
    WeightedSum(c, ChannelsUsed(|c|))
  }

  /** The weighted sum, stated band by band: 1.6 times the sum of channels
      below 20, 1.4 times the sum of channels 20-39 and 0.4 times the sum of
      the channels from 40 on, each band cut at k. */
  lemma {:induction false} WeightedSumByBands(c: seq<real>, k: nat)
    requires k <= |c| && k <= FreqChannels
    ensures WeightedSum(c, k) ==
      1.6 * Sum(c[..Min(k, 20)]) + 1.4 * Sum(c[Min(k, 20)..Min(k, 40)]) + 0.4 * Sum(c[Min(k, 40)..k])
  {
    if k > 0 {
      WeightedSumByBands(c, k - 1);
      var j := k - 1;
      if j < 20 {
        SumExtend(c, 0, j);
        assert c[..k] == c[0..k] && c[..j] == c[0..j];
        assert Min(k, 20) == k && Min(k, 40) == k && Min(j, 20) == j && Min(j, 40) == j;
      } else if j < 40 {
        SumExtend(c, 20, j);
        assert Min(k, 20) == 20 && Min(k, 40) == k && Min(j, 20) == 20 && Min(j, 40) == j;
      } else {
        SumExtend(c, 40, j);
        assert Min(k, 20) == 20 && Min(k, 40) == 40 && Min(j, 20) == 20 && Min(j, 40) == 40;
      }
    }
  }

  /** Growing a slice by one element adds that element to its sum. */
  lemma SumExtend(c: seq<real>, i: nat, j: nat)
    requires i <= j < |c|
    ensures Sum(c[i..j + 1]) == Sum(c[i..j]) + c[j]
  {
    assert c[i..j + 1][..j - i] == c[i..j];
  }

  /** Channels at or beyond min(50, F) never contribute. */
  lemma {:induction false} WeightedSumReadsPrefix(c1: seq<real>, c2: seq<real>, k: nat)
    requires k <= |c1| && k <= |c2| && k <= FreqChannels
    requires c1[..k] == c2[..k]
    ensures WeightedSum(c1, k) == WeightedSum(c2, k)
  {
    if k > 0 {
      assert c1[..k - 1] == c1[..k][..k - 1] && c2[..k - 1] == c2[..k][..k - 1];
      assert c1[k - 1] == c1[..k][k - 1];
      assert c2[k - 1] == c2[..k][k - 1];
      WeightedSumReadsPrefix(c1, c2, k - 1);
    }
  }

  lemma ReducedCellReadsPrefix(c1: seq<real>, c2: seq<real>)
    requires |c1| == |c2|
    requires c1[..ChannelsUsed(|c1|)] == c2[..ChannelsUsed(|c2|)]
    ensures ReducedCell(c1) == ReducedCell(c2)
  {
    WeightedSumReadsPrefix(c1, c2, ChannelsUsed(|c1|));
  }

  /** Channel weighting of an all-zero cell is zero. */
  lemma {:induction false} WeightedSumOfZeros(c: seq<real>, k: nat)
    requires k <= |c| && k <= FreqChannels
    requires forall f :: 0 <= f < |c| ==> c[f] == 0.0
    ensures WeightedSum(c, k) == 0.0
  {
    if k > 0 {
      WeightedSumOfZeros(c, k - 1);
    }
  }

  lemma ReducedCellOfZeros(c: seq<real>)
    requires forall f :: 0 <= f < |c| ==> c[f] == 0.0
    ensures ReducedCell(c) == 0.0
  {
    WeightedSumOfZeros(c, ChannelsUsed(|c|));
  }

  /** `data_2d += stats_float[:, :, f] * FREQ_WEIGHTS[f]`: adds one weighted
      channel to every cell of the field, in place. */
  method AddChannel(field: array2<real>, stats: seq<seq<seq<real>>>, T: nat, P: nat, F: nat, f: nat)
    requires IsTensor(stats, T, P, F) && f < F && f < FreqChannels
    requires field.Length0 == T && field.Length1 == P
    modifies field
    ensures forall t, p :: 0 <= t < T && 0 <= p < P ==>
      field[t, p] == old(field[t, p]) + stats[t][p][f] * FreqWeight(f)
  {
    var t := 0;
    while t < T
      invariant 0 <= t <= T
      invariant forall i, p :: 0 <= i < t && 0 <= p < P ==>
        field[i, p] == old(field[i, p]) + stats[i][p][f] * FreqWeight(f)
      invariant forall i, p :: t <= i < T && 0 <= p < P ==> field[i, p] == old(field[i, p])
    {
      var p := 0;
      while p < P
        invariant 0 <= p <= P
        invariant forall i, q :: 0 <= i < t && 0 <= q < P ==>
          field[i, q] == old(field[i, q]) + stats[i][q][f] * FreqWeight(f)
        invariant forall q :: 0 <= q < p ==>
          field[t, q] == old(field[t, q]) + stats[t][q][f] * FreqWeight(f)
        invariant forall i, q :: t <= i < T && 0 <= q < P && (i > t || q >= p) ==>
          field[i, q] == old(field[i, q])
      {
        field[t, p] := field[t, p] + stats[t][p][f] * FreqWeight(f);
        p := p + 1;
      }
      t := t + 1;
    }
  }

  /** The channel reduction of `optimized_preprocess`: a fresh T x P field,
      zero-initialised, to which channels 0 .. min(50, F) - 1 are added one
      at a time. Its shape is T x P whatever F is. */
  method ReduceChannels(stats: seq<seq<seq<real>>>, T: nat, P: nat, F: nat) returns (field: array2<real>)
    requires IsTensor(stats, T, P, F)
    ensures fresh(field) && field.Length0 == T && field.Length1 == P
    ensures forall t, p :: 0 <= t < T && 0 <= p < P ==> field[t, p] == ReducedCell(stats[t][p])
  {
    field := new real[T, P]((t, p) => 0.0);
    var n := ChannelsUsed(F);
    var f := 0;
    while f < n
      invariant 0 <= f <= n
      invariant forall t, p :: 0 <= t < T && 0 <= p < P ==> field[t, p] == WeightedSum(stats[t][p], f)
    {
      AddChannel(field, stats, T, P, F, f);
      f := f + 1;
    }
  }

  /** An all-zero recording reduces to an all-zero field. */
  lemma ZeroRecordingGivesZeroField(stats: seq<seq<seq<real>>>, T: nat, P: nat, F: nat)
    requires IsTensor(stats, T, P, F)
    requires forall t, p, f :: 0 <= t < T && 0 <= p < P && 0 <= f < F ==> stats[t][p][f] == 0.0
    ensures forall t, p :: 0 <= t < T && 0 <= p < P ==> ReducedCell(stats[t][p]) == 0.0
  {
    forall t, p | 0 <= t < T && 0 <= p < P
      ensures ReducedCell(stats[t][p]) == 0.0
    {
      ReducedCellOfZeros(stats[t][p]);
    }
  }
}
