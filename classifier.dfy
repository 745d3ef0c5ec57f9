/** Track Classifier: `smart_classify_vehicle`
    (traffic_visualization.py:156-191). The track is sampled with a fixed
    stride, the field amplitudes under the in-bounds samples are averaged,
    and a two-way threshold rule names the vehicle class. */
module Classifier {
  import opened Common

  datatype VehicleType = Light | Heavy

  /** The stride divides the track length by this. */
  const SampleDivisor: nat := 20
  const HeavyMeanAmp: real := 2.5
  const HeavyPeakAmp: real := 25.0
  /** Splits the light class into "moderate" and "low" in
      `traffic_visualization.py`; both sides give the same answer. */
  const ModerateMeanAmp: real := 1.0

  /** `max(1, n // 20)`. */
  function Stride(n: nat): (s: nat)
    ensures s >= 1
    ensures n < 2 * SampleDivisor ==> s == 1
    ensures n >= SampleDivisor ==> SampleDivisor * s <= n < SampleDivisor * s + SampleDivisor
  {
    if n / SampleDivisor > 1 then n / SampleDivisor else 1
  }

  /** `range(i, n, step)`. */
  function Stepped(n: nat, step: nat, i: nat): seq<nat>
    requires step >= 1
    decreases n - i
  {
    if i >= n then [] else [i] + Stepped(n, step, i + step)
  }

  /** The indices the classifier samples out of a track of n points. */
  function SampleIndices(n: nat): seq<nat>
  {
    Stepped(n, Stride(n), 0)
  }

  /** `range(i, n, step)` is i, i + step, i + 2 step, ...: every element lies
      below n and the next one would not. */
  lemma {:induction false} SteppedShape(n: nat, step: nat, i: nat)
    requires step >= 1
    ensures var r := Stepped(n, step, i);
      && (forall j :: 0 <= j < |r| ==> r[j] == i + j * step && r[j] < n)
      && (i >= n ==> r == [])
      && (i < n ==> i + (|r| - 1) * step < n <= i + |r| * step)
    decreases n - i
  {
    if i < n {
      SteppedShape(n, step, i + step);
      var r := Stepped(n, step, i);
      var r' := Stepped(n, step, i + step);
      assert r == [i] + r';
      forall j | 0 <= j < |r| ensures r[j] == i + j * step {
        if j > 0 {
          assert r[j] == r'[j - 1];
          assert step + (j - 1) * step == j * step;
        }
      }
    }
  }

  /** The sampled indices are exactly 0, step, 2 step, ... below n. */
  lemma SampleIndicesAreMultiples(n: nat)
    ensures var r := SampleIndices(n);
      && (forall j :: 0 <= j < |r| ==> r[j] == j * Stride(n) && r[j] < n)
      && n <= |r| * Stride(n)
  {
    SteppedShape(n, Stride(n), 0);
  }

  lemma MulMonotone(a: int, b: int, s: int)
    requires a <= b && s >= 0
    ensures a * s <= b * s
  {
  }

  /** The number of samples is n for tracks shorter than 20 points and
      between 20 and 39 otherwise: at least min(n, 20), never more than 39.
      The stride n div 20 rounds down, so the bound of 20 samples the
      comment at `traffic_visualization.py:163` promises does not hold. */
  lemma SampleCountBounds(n: nat)
    ensures n < SampleDivisor ==> |SampleIndices(n)| == n
    ensures n >= SampleDivisor ==> SampleDivisor <= |SampleIndices(n)| <= 2 * SampleDivisor - 1
  {
    var s := Stride(n);
    var c := |SampleIndices(n)|;
    SteppedShape(n, s, 0);
    if n >= SampleDivisor {
      assert (c - 1) * s < n <= c * s;
      if c < 20 {
        MulMonotone(c, 19, s);
      }
      if c >= 40 {
        MulMonotone(19, c - 21, s);
      }
    }
  }

  /** A 39-point track is sampled at all 39 points. */
  lemma ThirtyNinePointsGiveThirtyNineSamples()
    ensures |SampleIndices(39)| == 39 > SampleDivisor
  {
    assert Stride(39) == 1;
    SteppedShape(39, 1, 0);
  }

  /** The amplitude read at one point, if its truncated indices fall inside
      the T x P field. */
  function SampleAt(signal: seq<seq<real>>, T: nat, P: nat, pt: Point): seq<real>
    requires IsGrid(signal, T, P)
  {
    var tIdx, xIdx := pt.t, Trunc(pt.x);
    if tIdx < T && 0 <= xIdx < P then [signal[tIdx][xIdx]] else []
  }

  /** The amplitudes read at the given indices of the track, in order. */
  function AmplitudesAt(signal: seq<seq<real>>, T: nat, P: nat, pts: seq<Point>, idx: seq<nat>): seq<real>
    requires IsGrid(signal, T, P)
    requires forall j :: 0 <= j < |idx| ==> idx[j] < |pts|
  {
    if idx == [] then []
    else SampleAt(signal, T, P, pts[idx[0]]) + AmplitudesAt(signal, T, P, pts, idx[1..])
  }

  /** The amplitudes read at i, i + step, ... below the track length. */
  function AmplitudesFrom(signal: seq<seq<real>>, T: nat, P: nat, pts: seq<Point>, step: nat, i: nat): seq<real>
    requires IsGrid(signal, T, P) && step >= 1
    decreases |pts| - i
  {
    if i >= |pts| then []
    else SampleAt(signal, T, P, pts[i]) + AmplitudesFrom(signal, T, P, pts, step, i + step)
  }

  /** The amplitude list the classifier collects. */
  function SampledAmplitudes(signal: seq<seq<real>>, T: nat, P: nat, pts: seq<Point>): seq<real>
    requires IsGrid(signal, T, P)
  {
    AmplitudesFrom(signal, T, P, pts, Stride(|pts|), 0)
  }

  /** Reading from i on with a stride is reading at the indices of
      `range(i, n, step)`. */
  lemma {:induction false} AmplitudesFromIndices(signal: seq<seq<real>>, T: nat, P: nat, pts: seq<Point>, step: nat, i: nat)
    requires IsGrid(signal, T, P) && step >= 1
    ensures var idx := Stepped(|pts|, step, i);
      && (forall j :: 0 <= j < |idx| ==> idx[j] < |pts|)
      && AmplitudesFrom(signal, T, P, pts, step, i) == AmplitudesAt(signal, T, P, pts, idx)
    decreases |pts| - i
  {
    SteppedShape(|pts|, step, i);
    if i < |pts| {
      AmplitudesFromIndices(signal, T, P, pts, step, i + step);
      var rest := Stepped(|pts|, step, i + step);
      assert Stepped(|pts|, step, i) == [i] + rest;
      assert ([i] + rest)[1..] == rest;
    }
  }

  /** So the classifier's amplitudes are the in-bounds readings at the
      sampled indices 0, step, 2 step, ..., one reading per index at most. */
  lemma SampledAtSampleIndices(signal: seq<seq<real>>, T: nat, P: nat, pts: seq<Point>)
    requires IsGrid(signal, T, P)
    ensures var idx := SampleIndices(|pts|);
      && (forall j :: 0 <= j < |idx| ==> idx[j] < |pts|)
      && SampledAmplitudes(signal, T, P, pts) == AmplitudesAt(signal, T, P, pts, idx)
  {
    AmplitudesFromIndices(signal, T, P, pts, Stride(|pts|), 0);
  }

  /** The decision of `smart_classify_vehicle` with its amplitude. */
  function Classification(signal: seq<seq<real>>, T: nat, P: nat, pts: seq<Point>): (VehicleType, real)
    requires IsGrid(signal, T, P)
  {
    if pts == [] then (Light, 0.0)
    else
      var amps := SampledAmplitudes(signal, T, P, pts);
      if amps == [] then (Light, 0.0)
      else
        var avg, peak := Mean(amps), Max(amps);
        if avg > HeavyMeanAmp || peak > HeavyPeakAmp then (Heavy, avg)
        else if avg > ModerateMeanAmp then (Light, avg)
        else (Light, avg)
  }

  /** Only two classes come out. "heavy" exactly when some amplitude was
      sampled and their mean exceeds 2.5 or their maximum exceeds 25.
      Without samples (in particular for an empty track) the answer is
      ("light", 0); otherwise the amplitude is the sampled mean. */
  lemma ClassificationRule(signal: seq<seq<real>>, T: nat, P: nat, pts: seq<Point>)
    requires IsGrid(signal, T, P)
    ensures var amps := SampledAmplitudes(signal, T, P, pts);
      && (pts == [] ==> amps == [])
      && (Classification(signal, T, P, pts).0 == Heavy <==>
            amps != [] && (Mean(amps) > HeavyMeanAmp || Max(amps) > HeavyPeakAmp))
      && (amps == [] ==> Classification(signal, T, P, pts) == (Light, 0.0))
      && (amps != [] ==> Classification(signal, T, P, pts).1 == Mean(amps))
  {
  }

  /** A heavy track has some sampled amplitude above 2.5; a light track
      with samples has mean at most 2.5 and every sample at most 25. */
  lemma ClassificationBounds(signal: seq<seq<real>>, T: nat, P: nat, pts: seq<Point>)
    requires IsGrid(signal, T, P)
    ensures var amps := SampledAmplitudes(signal, T, P, pts);
      && (Classification(signal, T, P, pts).0 == Heavy ==>
            exists i :: 0 <= i < |amps| && amps[i] > HeavyMeanAmp)
      && (Classification(signal, T, P, pts).0 == Light && amps != [] ==>
            Classification(signal, T, P, pts).1 <= HeavyMeanAmp &&
            forall i :: 0 <= i < |amps| ==> amps[i] <= HeavyPeakAmp)
  {
    var amps := SampledAmplitudes(signal, T, P, pts);
    ClassificationRule(signal, T, P, pts);
    if amps != [] {
      MeanAtMostMax(amps);
      var m := Max(amps);
      var k :| 0 <= k < |amps| && amps[k] == m;
    }
  }

  /** The stepped loop of `smart_classify_vehicle`: every step-th point,
      starting at the first, contributes its amplitude when its truncated
      indices lie inside the field. */
  method CollectAmplitudes(signal: seq<seq<real>>, T: nat, P: nat, pts: seq<Point>)
    returns (amplitudes: seq<real>)
    requires IsGrid(signal, T, P)
    ensures amplitudes == SampledAmplitudes(signal, T, P, pts)
  {
    var n := |pts|;
    var step := Stride(n);
    amplitudes := [];
    var i := 0;
    while i < n
      invariant amplitudes + AmplitudesFrom(signal, T, P, pts, step, i) == SampledAmplitudes(signal, T, P, pts)
      decreases n - i
    {
      ghost var before, sample := amplitudes, SampleAt(signal, T, P, pts[i]);
      ghost var rest := AmplitudesFrom(signal, T, P, pts, step, i + step);
      var tIdx, xIdx := pts[i].t, Trunc(pts[i].x);
      if tIdx < T && 0 <= xIdx < P {
        amplitudes := amplitudes + [signal[tIdx][xIdx]];
      }
      assert amplitudes == before + sample;
      ConcatAssoc(before, sample, rest);
      i := i + step;
    }
  }

  /** Stated as a lemma so that the loop above sees only this one equation
      rather than the sequence axioms behind it. */
  lemma ConcatAssoc(a: seq<real>, b: seq<real>, c: seq<real>)
    ensures (a + b) + c == a + (b + c)
  {
  }

  /** `smart_classify_vehicle`: the collected amplitudes' mean and maximum
      decide the class. */
  method ClassifyVehicle(signal: seq<seq<real>>, T: nat, P: nat, pts: seq<Point>)
    returns (kind: VehicleType, avgAmp: real)
    requires IsGrid(signal, T, P)
    ensures (kind, avgAmp) == Classification(signal, T, P, pts)
    ensures var amps := SampledAmplitudes(signal, T, P, pts);
      && (kind == Heavy <==> amps != [] && (Mean(amps) > HeavyMeanAmp || Max(amps) > HeavyPeakAmp))
      && (amps == [] ==> avgAmp == 0.0)
      && (amps != [] ==> avgAmp == Mean(amps))
  {
    if pts == [] {
      return Light, 0.0;
    }
    var amplitudes := CollectAmplitudes(signal, T, P, pts);
    if amplitudes == [] {
      return Light, 0.0;
    }
    var avg, peak := Mean(amplitudes), Max(amplitudes);
    if avg > HeavyMeanAmp || peak > HeavyPeakAmp {
      kind, avgAmp := Heavy, avg;
    } else if avg > ModerateMeanAmp {
      kind, avgAmp := Light, avg;
    } else {
      kind, avgAmp := Light, avg;
    }
  }
}
