/** Line Detector: the candidate filter of `detect_tracks_fast`
    (traffic_visualization.py:125-154), applied to the lines the Hough
    search proposes. The Hough search itself and the trace
    `x = (dist - t sin a) / cos a` are not part of this model: each
    candidate arrives as its angle in degrees and the position it implies
    at every time index 0 .. T-1. */
module LineDetector {
  import opened Common

  const MinAngleDeg: real := 3.0
  const MaxAngleDeg: real := 87.0
  /** The support check looks at this many leading in-bounds points ... */
  const SupportWindow: nat := 10
  /** ... and needs this many of them on set mask cells. */
  const MinSupport: nat := 3

  /** A Hough line: its angle in degrees and trace[t], the position the
      line passes at time index t. */
  datatype Candidate = Candidate(deg: real, trace: seq<real>)

  /** The points of trace[..k] whose position lies in [0, L), in time order. */
  function InBounds(trace: seq<real>, L: nat, k: nat): (pts: seq<Point>)
    requires k <= |trace|
    ensures |pts| <= k
    ensures forall i :: 0 <= i < |pts| ==>
      pts[i].t < k && 0.0 <= pts[i].x < L as real && pts[i].x == trace[pts[i].t]
  {
    if k == 0 then []
    else
      InBounds(trace, L, k - 1) +
      (if 0.0 <= trace[k - 1] < L as real then [Point(k - 1, trace[k - 1])] else [])
  }

  /** Strictly increasing time indices. */
  ghost predicate TimeOrdered(pts: seq<Point>)
  {
    forall i, j :: 0 <= i < j < |pts| ==> pts[i].t < pts[j].t
  }

  /** The in-bounds points keep their time order, and none is missed. */
  lemma InBoundsOrderedComplete(trace: seq<real>, L: nat, k: nat)
    requires k <= |trace|
    ensures var pts := InBounds(trace, L, k);
      && TimeOrdered(pts)
      && (forall t :: 0 <= t < k && 0.0 <= trace[t] < L as real ==> Point(t, trace[t]) in pts)
  {
    InBoundsOrdered(trace, L, k);
    InBoundsComplete(trace, L, k);
  }

  lemma {:induction false} InBoundsOrdered(trace: seq<real>, L: nat, k: nat)
    requires k <= |trace|
    ensures TimeOrdered(InBounds(trace, L, k))
  {
    if k > 0 {
      InBoundsOrdered(trace, L, k - 1);
      var init := InBounds(trace, L, k - 1);
      var pts := InBounds(trace, L, k);
      assert TimeOrdered(init);
      forall i, j | 0 <= i < j < |pts| ensures pts[i].t < pts[j].t {
        assert pts[i] == init[i];
        if j < |init| {
          assert pts[j] == init[j];
          assert init[i].t < init[j].t;
        } else {
          assert init[i].t < k - 1;
          assert pts[j] == Point(k - 1, trace[k - 1]);
        }
      }
    }
  }

  /** Every in-bounds position of trace[..k] appears in pts as a point. */
  ghost predicate CoversInBounds(trace: seq<real>, L: nat, k: nat, pts: seq<Point>)
    requires k <= |trace|
  {
    forall t :: 0 <= t < k && 0.0 <= trace[t] < L as real ==> Point(t, trace[t]) in pts
  }

  lemma {:induction false} InBoundsComplete(trace: seq<real>, L: nat, k: nat)
    requires k <= |trace|
    ensures CoversInBounds(trace, L, k, InBounds(trace, L, k))
  {
    if k > 0 {
      InBoundsComplete(trace, L, k - 1);
      var init := InBounds(trace, L, k - 1);
      var extra := if 0.0 <= trace[k - 1] < L as real then [Point(k - 1, trace[k - 1])] else [];
      var pts := InBounds(trace, L, k);
      assert pts == init + extra;
      assert CoversInBounds(trace, L, k - 1, init);
      forall t | 0 <= t < k && 0.0 <= trace[t] < L as real ensures Point(t, trace[t]) in pts {
        if t < k - 1 {
          assert Point(t, trace[t]) in init;
        } else {
          assert extra == [Point(t, trace[t])];
        }
      }
    }
  }

  /** `list(zip(t_vals[valid], x_vals[valid]))`. */
  function TrackPoints(c: Candidate, L: nat): seq<Point>
  {
    InBounds(c.trace, L, |c.trace|)
  }

  /** Every point indexes a cell of a T x L grid once its position is
      truncated. */
  ghost predicate PointsInGrid(pts: seq<Point>, T: nat, L: nat)
  {
    forall i :: 0 <= i < |pts| ==> pts[i].t < T && 0.0 <= pts[i].x < L as real
  }

  /** Whether a point, its position truncated as `int(x)` does, lands on a
      set mask cell. */
  predicate OnSetCell(mask: seq<seq<bool>>, T: nat, L: nat, pt: Point)
    requires IsGrid(mask, T, L) && pt.t < T && 0.0 <= pt.x < L as real
  {
    mask[pt.t][Trunc(pt.x)]
  }

  /** How many of pts[..k] fall on a set mask cell. */
  function SupportCount(mask: seq<seq<bool>>, T: nat, L: nat, pts: seq<Point>, k: nat): (n: nat)
    requires IsGrid(mask, T, L) && PointsInGrid(pts, T, L) && k <= |pts|
    ensures n <= k
  {
    if k == 0 then 0
    else
      SupportCount(mask, T, L, pts, k - 1) + (if OnSetCell(mask, T, L, pts[k - 1]) then 1 else 0)
  }

  /** The indices below k whose point lands on a set mask cell. */
  ghost function SupportedIndices(mask: seq<seq<bool>>, T: nat, L: nat, pts: seq<Point>, k: nat): set<nat>
    requires IsGrid(mask, T, L) && PointsInGrid(pts, T, L) && k <= |pts|
  {
    set i: nat | i < k && OnSetCell(mask, T, L, pts[i])
  }

  /** Extending the window by its k-th point adds that point's index
      exactly when the point is supported. */
  lemma SupportedIndicesStep(mask: seq<seq<bool>>, T: nat, L: nat, pts: seq<Point>, k: nat)
    requires IsGrid(mask, T, L) && PointsInGrid(pts, T, L) && 0 < k <= |pts|
    ensures SupportedIndices(mask, T, L, pts, k) ==
      SupportedIndices(mask, T, L, pts, k - 1) + (if OnSetCell(mask, T, L, pts[k - 1]) then {k - 1} else {})
  {
    var before := SupportedIndices(mask, T, L, pts, k - 1);
    var last: set<nat> := if OnSetCell(mask, T, L, pts[k - 1]) then {k - 1} else {};
    forall i: nat | i < k - 1
      ensures (i in SupportedIndices(mask, T, L, pts, k)) == (i in before)
    {
    }
    forall i: nat | i in SupportedIndices(mask, T, L, pts, k) || i in before + last
      ensures i < k
    {
    }
  }

  /** The support count is the number of supported indices: every point
      counted once, none missed. */
  lemma {:induction false} SupportCountIsSetSize(mask: seq<seq<bool>>, T: nat, L: nat, pts: seq<Point>, k: nat)
    requires IsGrid(mask, T, L) && PointsInGrid(pts, T, L) && k <= |pts|
    ensures SupportCount(mask, T, L, pts, k) == |SupportedIndices(mask, T, L, pts, k)|
  {
    if k > 0 {
      SupportCountIsSetSize(mask, T, L, pts, k - 1);
      SupportedIndicesStep(mask, T, L, pts, k);
      var before := SupportedIndices(mask, T, L, pts, k - 1);
      if OnSetCell(mask, T, L, pts[k - 1]) {
        assert k - 1 !in before;
        assert |before + {k - 1}| == |before| + 1;
      } else {
        assert before + {} == before;
      }
    }
  }

  /** The three tests a candidate passes in order: the angle window, the
      minimum number of in-bounds points, and the support count over the
      first ten of them. */
  ghost predicate Kept(mask: seq<seq<bool>>, T: nat, L: nat, c: Candidate)
    requires IsGrid(mask, T, L) && |c.trace| == T
  {
    var pts := TrackPoints(c, L);
    && MinAngleDeg < Abs(c.deg) < MaxAngleDeg
    && |pts| >= MinTrackLength
    && SupportCount(mask, T, L, pts, Min(SupportWindow, |pts|)) >= MinSupport
  }

  ghost predicate Traces(cands: seq<Candidate>, T: nat)
  {
    forall i :: 0 <= i < |cands| ==> |cands[i].trace| == T
  }

  /** The point lists of the kept candidates, in candidate order. */
  ghost function Detected(mask: seq<seq<bool>>, T: nat, L: nat, cands: seq<Candidate>): seq<seq<Point>>
    requires IsGrid(mask, T, L) && Traces(cands, T)
  {
    if cands == [] then []
    else
      var c := cands[|cands| - 1];
      Detected(mask, T, L, cands[..|cands| - 1]) + (if Kept(mask, T, L, c) then [TrackPoints(c, L)] else [])
  }

  /** The support loop over `track_points[:10]`. Intensities of the
      supporting cells are accumulated into `signalSum`, as the Python code
      does, but never tested. */
  method Support(signal: seq<seq<real>>, mask: seq<seq<bool>>, T: nat, L: nat, pts: seq<Point>)
    returns (count: nat)
    requires IsGrid(signal, T, L) && IsGrid(mask, T, L) && PointsInGrid(pts, T, L)
    ensures count == SupportCount(mask, T, L, pts, Min(SupportWindow, |pts|))
  {
    var signalSum := 0.0;
    count := 0;
    var k := 0;
    var window := Min(SupportWindow, |pts|);
    while k < window
      invariant 0 <= k <= window
      invariant count == SupportCount(mask, T, L, pts, k)
    {
      var tIdx, xIdx := pts[k].t, Trunc(pts[k].x);
      if mask[tIdx][xIdx] {
        signalSum := signalSum + signal[tIdx][xIdx];
        count := count + 1;
      }
      k := k + 1;
    }
  }

  /** The candidate loop of `detect_tracks_fast`. Its result depends on
      the mask alone: the intensities are only read into an unused sum. */
  method DetectTracks(signal: seq<seq<real>>, mask: seq<seq<bool>>, T: nat, L: nat, cands: seq<Candidate>)
    returns (tracks: seq<seq<Point>>)
    requires IsGrid(signal, T, L) && IsGrid(mask, T, L) && Traces(cands, T)
    ensures tracks == Detected(mask, T, L, cands)
  {
    tracks := [];
    var i := 0;
    while i < |cands|
      invariant 0 <= i <= |cands|
      invariant tracks == Detected(mask, T, L, cands[..i])
    {
      var c := cands[i];
      assert cands[..i + 1][..i] == cands[..i];
      if MinAngleDeg < Abs(c.deg) < MaxAngleDeg {
        var pts := TrackPoints(c, L);
        if |pts| >= MinTrackLength {
          var count := Support(signal, mask, T, L, pts);
          if count >= MinSupport {
            tracks := tracks + [pts];
          }
        }
      }
      i := i + 1;
    }
    assert cands[..|cands|] == cands;
  }

  /** Everything the detector returns is the point list of a kept candidate. */
  lemma {:induction false} DetectedFromKept(mask: seq<seq<bool>>, T: nat, L: nat, cands: seq<Candidate>, j: nat)
    requires IsGrid(mask, T, L) && Traces(cands, T)
    requires j < |Detected(mask, T, L, cands)|
    ensures exists i :: 0 <= i < |cands| && Kept(mask, T, L, cands[i]) && Detected(mask, T, L, cands)[j] == TrackPoints(cands[i], L)
  {
    var init := cands[..|cands| - 1];
    assert Traces(init, T);
    if j < |Detected(mask, T, L, init)| {
      DetectedFromKept(mask, T, L, init, j);
      var i :| 0 <= i < |init| && Kept(mask, T, L, init[i]) && Detected(mask, T, L, init)[j] == TrackPoints(init[i], L);
      assert init[i] == cands[i];
    } else {
      assert Kept(mask, T, L, cands[|cands| - 1]);
    }
  }

  /** So every returned list has an angle strictly between 3 and 87
      degrees, at least eight points, all inside the field, in strictly
      increasing time, and at least three of its first ten on set mask
      cells. */
  lemma DetectedSound(mask: seq<seq<bool>>, T: nat, L: nat, cands: seq<Candidate>, j: nat)
    requires IsGrid(mask, T, L) && Traces(cands, T)
    requires j < |Detected(mask, T, L, cands)|
    ensures exists i ::
      && 0 <= i < |cands|
      && MinAngleDeg < Abs(cands[i].deg) < MaxAngleDeg
      && Detected(mask, T, L, cands)[j] == TrackPoints(cands[i], L)
    ensures var pts := Detected(mask, T, L, cands)[j];
      && |pts| >= MinTrackLength
      && PointsInGrid(pts, T, L)
      && TimeOrdered(pts)
      && SupportCount(mask, T, L, pts, Min(SupportWindow, |pts|)) >= MinSupport
  {
    DetectedFromKept(mask, T, L, cands, j);
    var i :| 0 <= i < |cands| && Kept(mask, T, L, cands[i]) && Detected(mask, T, L, cands)[j] == TrackPoints(cands[i], L);
    var pts := Detected(mask, T, L, cands)[j];
    assert |cands[i].trace| == T;
    InBoundsOrdered(cands[i].trace, L, T);
    assert PointsInGrid(pts, T, L);
  }

  /** Every kept candidate's points are returned. */
  lemma {:induction false} DetectedComplete(mask: seq<seq<bool>>, T: nat, L: nat, cands: seq<Candidate>, i: nat)
    requires IsGrid(mask, T, L) && Traces(cands, T)
    requires i < |cands| && Kept(mask, T, L, cands[i])
    ensures TrackPoints(cands[i], L) in Detected(mask, T, L, cands)
  {
    var init := cands[..|cands| - 1];
    assert Traces(init, T);
    if i < |init| {
      assert init[i] == cands[i];
      DetectedComplete(mask, T, L, init, i);
    }
  }

  /** The indices of the kept candidates. */
  ghost function KeptIndices(mask: seq<seq<bool>>, T: nat, L: nat, cands: seq<Candidate>): set<nat>
    requires IsGrid(mask, T, L) && Traces(cands, T)
  {
    set i: nat | i < |cands| && Kept(mask, T, L, cands[i])
  }

  /** Appending a candidate adds its index to the kept indices exactly when
      it is kept. */
  lemma KeptIndicesStep(mask: seq<seq<bool>>, T: nat, L: nat, cands: seq<Candidate>)
    requires IsGrid(mask, T, L) && Traces(cands, T) && cands != []
    ensures var n := |cands| - 1;
      Traces(cands[..n], T) &&
      KeptIndices(mask, T, L, cands) ==
        KeptIndices(mask, T, L, cands[..n]) + (if Kept(mask, T, L, cands[n]) then {n} else {})
  {
    var n := |cands| - 1;
    var init := cands[..n];
    assert Traces(init, T);
    var before := KeptIndices(mask, T, L, init);
    var rest := if Kept(mask, T, L, cands[n]) then {n} else {};
    forall i: nat | i < n
      ensures (i in KeptIndices(mask, T, L, cands)) == (i in before)
    {
      assert init[i] == cands[i];
    }
    forall i: nat | i in KeptIndices(mask, T, L, cands) || i in before + rest
      ensures i < |cands|
    {
    }
  }

  /** One list per kept candidate: the detector returns exactly as many
      lists as there are candidates passing the three tests, so two kept
      candidates with the same points give two entries. */
  lemma {:induction false} DetectedCount(mask: seq<seq<bool>>, T: nat, L: nat, cands: seq<Candidate>)
    requires IsGrid(mask, T, L) && Traces(cands, T)
    ensures |Detected(mask, T, L, cands)| == |KeptIndices(mask, T, L, cands)|
  {
    if cands != [] {
      var n := |cands| - 1;
      KeptIndicesStep(mask, T, L, cands);
      DetectedCount(mask, T, L, cands[..n]);
      assert n !in KeptIndices(mask, T, L, cands[..n]);
    } else {
      assert KeptIndices(mask, T, L, cands) == {};
    }
  }

  /** The detector never returns more lists than it was given candidates,
      and never a list shorter than MIN_TRACK_LENGTH, so the length re-check
      of the track builder (traffic_visualization.py:212) drops nothing. */
  lemma DetectedPassLengthCheck(mask: seq<seq<bool>>, T: nat, L: nat, cands: seq<Candidate>)
    requires IsGrid(mask, T, L) && Traces(cands, T)
    ensures |Detected(mask, T, L, cands)| <= |cands|
    ensures forall j :: 0 <= j < |Detected(mask, T, L, cands)| ==> |Detected(mask, T, L, cands)[j]| >= MinTrackLength
  {
    DetectedLength(mask, T, L, cands);
    forall j | 0 <= j < |Detected(mask, T, L, cands)|
      ensures |Detected(mask, T, L, cands)[j]| >= MinTrackLength
    {
      DetectedFromKept(mask, T, L, cands, j);
    }
  }

  lemma {:induction false} DetectedLength(mask: seq<seq<bool>>, T: nat, L: nat, cands: seq<Candidate>)
    requires IsGrid(mask, T, L) && Traces(cands, T)
    ensures |Detected(mask, T, L, cands)| <= |cands|
  {
    if cands != [] {
      assert Traces(cands[..|cands| - 1], T);
      DetectedLength(mask, T, L, cands[..|cands| - 1]);
    }
  }
}
