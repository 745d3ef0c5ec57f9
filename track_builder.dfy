/** Track Builder & Speed Estimator: the per-track loop of
    `fast_generate_analysis` (traffic_visualization.py:210-243). Each
    detected point list becomes a track of (timestamp, position) points,
    is classified, gets a speed from its end points, and is kept only when
    that speed is plausible. */
module TrackBuilder {
  import opened Common
  import opened Classifier

  /** Metres per second to kilometres per hour. */
  const KmhPerMs: real := 3.6

  datatype TrackPoint = TrackPoint(time: real, position: real)

  datatype Track = Track(id: nat, points: seq<TrackPoint>, kind: VehicleType, avgAmp: real, speedKmh: real)

  /** `timestamps[int(t)] if int(t) < len(timestamps) else timestamps[-1]`. */
  function TimeOf(ts: seq<real>, t: nat): (r: real)
    requires ts != []
    ensures r in ts
    ensures t < |ts| ==> r == ts[t]
    ensures t >= |ts| ==> r == ts[|ts| - 1]
  {
    if t < |ts| then ts[t] else ts[|ts| - 1]
  }

  /** The `track_data` list: one point per detected point, in order. */
  function ToTrackPoints(ts: seq<real>, raw: seq<Point>): (r: seq<TrackPoint>)
    requires ts != []
    ensures |r| == |raw|
    ensures forall k :: 0 <= k < |raw| ==>
      r[k].position == raw[k].x &&
      (raw[k].t < |ts| ==> r[k].time == ts[raw[k].t]) &&
      (raw[k].t >= |ts| ==> r[k].time == ts[|ts| - 1])
  {
    if raw == [] then []
    else
      var k := |raw| - 1;
      ToTrackPoints(ts, raw[..k]) + [TrackPoint(TimeOf(ts, raw[k].t), raw[k].x)]
  }

  /** Speed from the first and the last point, in km/h; zero when there is
      no second point or no time elapsed. */
  function Speed(pts: seq<TrackPoint>): (v: real)
    ensures v >= 0.0
    ensures |pts| < 2 ==> v == 0.0
    ensures |pts| >= 2 && pts[|pts| - 1].time - pts[0].time <= 0.0 ==> v == 0.0
    ensures |pts| >= 2 && pts[|pts| - 1].time - pts[0].time > 0.0 ==>
      v * (pts[|pts| - 1].time - pts[0].time) == Abs(pts[|pts| - 1].position - pts[0].position) * KmhPerMs
  {
    if |pts| > 1 then
      var dt := pts[|pts| - 1].time - pts[0].time;
      var dx := pts[|pts| - 1].position - pts[0].position;
      if dt > 0.0 then Abs(dx / dt * KmhPerMs) else 0.0
    else 0.0
  }

  predicate InSpeedBand(v: real)
  {
    MinSpeedKmh <= v <= MaxSpeedKmh
  }

  /** A point list gets a timestamp for every point, which fails only when
      the timestamp array is empty and the list is long enough to be used. */
  ghost predicate TimestampsAvailable(ts: seq<real>, raws: seq<seq<Point>>)
  {
    ts != [] || forall i :: 0 <= i < |raws| ==> |raws[i]| < MinTrackLength
  }

  /** Whether a detected point list survives the length re-check and
      the speed band. */
  predicate Accepted(ts: seq<real>, raw: seq<Point>)
    requires |raw| >= MinTrackLength ==> ts != []
  {
    |raw| >= MinTrackLength && InSpeedBand(Speed(ToTrackPoints(ts, raw)))
  }

  function MakeTrack(signal: seq<seq<real>>, T: nat, P: nat, ts: seq<real>, i: nat, raw: seq<Point>): Track
    requires IsGrid(signal, T, P) && ts != []
  {
    var pts := ToTrackPoints(ts, raw);
    var c := Classification(signal, T, P, raw);
    Track(i, pts, c.0, c.1, Speed(pts))
  }

  /** The accepted tracks of raws, in the order of raws, each carrying as id
      the index of its point list in raws (the detector's output, not the
      Hough search's order). */
  ghost function Built(signal: seq<seq<real>>, T: nat, P: nat, ts: seq<real>, raws: seq<seq<Point>>): seq<Track>
    requires IsGrid(signal, T, P) && TimestampsAvailable(ts, raws)
  {
    if raws == [] then []
    else
      var i := |raws| - 1;
      assert TimestampsAvailable(ts, raws[..i]);
      Built(signal, T, P, ts, raws[..i]) +
      (if Accepted(ts, raws[i]) then [MakeTrack(signal, T, P, ts, i, raws[i])] else [])
  }

  /** The `track_data` loop: looks up each point's timestamp. With no
      timestamps at all the first lookup of `timestamps[-1]` raises. */
  method TrackData(ts: seq<real>, raw: seq<Point>) returns (r: Result<seq<TrackPoint>>)
    ensures r.Failure? <==> ts == [] && raw != []
    ensures r.Failure? ==> r.error == EmptyTimestamps
    ensures r.Success? && ts != [] ==> r.value == ToTrackPoints(ts, raw)
    ensures r.Success? && ts == [] ==> r.value == []
  {
    var data: seq<TrackPoint> := [];
    var k := 0;
    while k < |raw|
      invariant 0 <= k <= |raw|
      invariant ts != [] ==> data == ToTrackPoints(ts, raw[..k])
      invariant ts == [] ==> k == 0 && data == []
    {
      var t := raw[k].t;
      var timeVal: real;
      if t < |ts| {
        timeVal := ts[t];
      } else if ts == [] {
        return Failure(EmptyTimestamps);
      } else {
        timeVal := ts[|ts| - 1];
      }
      assert raw[..k + 1][..k] == raw[..k];
      data := data + [TrackPoint(timeVal, raw[k].x)];
      k := k + 1;
    }
    assert raw[..k] == raw;
    r := Success(data);
  }

  /** The loop of `fast_generate_analysis` over the detected point lists.
      An empty timestamp array makes `timestamps[-1]` raise at the first
      point list that passes the length check; the run then fails. */
  method BuildTracks(signal: seq<seq<real>>, T: nat, P: nat, raws: seq<seq<Point>>, ts: seq<real>)
    returns (r: Result<seq<Track>>)
    requires IsGrid(signal, T, P)
    ensures r.Failure? <==> ts == [] && exists i :: 0 <= i < |raws| && |raws[i]| >= MinTrackLength
    ensures r.Failure? ==> r.error == EmptyTimestamps
    ensures r.Success? ==> TimestampsAvailable(ts, raws) && r.value == Built(signal, T, P, ts, raws)
  {
    var tracks: seq<Track> := [];
    var i := 0;
    while i < |raws|
      invariant 0 <= i <= |raws|
      invariant TimestampsAvailable(ts, raws[..i])
      invariant tracks == Built(signal, T, P, ts, raws[..i])
    {
      var raw := raws[i];
      assert raws[..i + 1][..i] == raws[..i];
      if |raw| >= MinTrackLength {
        var data := TrackData(ts, raw);
        if data.Failure? {
          return Failure(data.error);
        }
        var kind, avgAmp := ClassifyVehicle(signal, T, P, raw);
        var speedKmh := Speed(data.value);
        if MinSpeedKmh <= speedKmh <= MaxSpeedKmh {
          tracks := tracks + [Track(i, data.value, kind, avgAmp, speedKmh)];
        }
      }
      assert TimestampsAvailable(ts, raws[..i + 1]);
      i := i + 1;
    }
    assert raws[..i] == raws;
    r := Success(tracks);
  }

  /** Ids increase strictly along the list (gaps where point lists were
      dropped), and each is an index into raws. */
  lemma {:induction false} BuiltIdsIncrease(signal: seq<seq<real>>, T: nat, P: nat, ts: seq<real>, raws: seq<seq<Point>>)
    requires IsGrid(signal, T, P) && TimestampsAvailable(ts, raws)
    ensures var tracks := Built(signal, T, P, ts, raws);
      && |tracks| <= |raws|
      && (forall j :: 0 <= j < |tracks| ==> tracks[j].id < |raws|)
      && (forall a, b :: 0 <= a < b < |tracks| ==> tracks[a].id < tracks[b].id)
  {
    if raws != [] {
      var i := |raws| - 1;
      assert TimestampsAvailable(ts, raws[..i]);
      BuiltIdsIncrease(signal, T, P, ts, raws[..i]);
    }
  }

  /** Every track is the accepted point list its id names, built from it:
      the same number of points in the same order, each point's time
      looked up with the last-timestamp fallback and its position kept,
      the classifier's verdict and a speed within [5, 120] km/h. */
  lemma {:induction false} BuiltSound(signal: seq<seq<real>>, T: nat, P: nat, ts: seq<real>, raws: seq<seq<Point>>, j: nat)
    requires IsGrid(signal, T, P) && TimestampsAvailable(ts, raws)
    requires j < |Built(signal, T, P, ts, raws)|
    ensures var tr := Built(signal, T, P, ts, raws)[j];
      && tr.id < |raws| && ts != []
      && Accepted(ts, raws[tr.id])
      && tr == MakeTrack(signal, T, P, ts, tr.id, raws[tr.id])
      && |tr.points| == |raws[tr.id]| >= MinTrackLength
      && (tr.kind, tr.avgAmp) == Classification(signal, T, P, raws[tr.id])
      && InSpeedBand(tr.speedKmh) && tr.speedKmh == Speed(tr.points)
  {
    var i := |raws| - 1;
    assert TimestampsAvailable(ts, raws[..i]);
    if j < |Built(signal, T, P, ts, raws[..i])| {
      BuiltSound(signal, T, P, ts, raws[..i], j);
      BuiltIdsIncrease(signal, T, P, ts, raws[..i]);
      var id := Built(signal, T, P, ts, raws[..i])[j].id;
      assert raws[..i][id] == raws[id];
    }
  }

  /** Conversely every point list that passes the length check and the
      speed band yields a track with its index as id. */
  lemma {:induction false} BuiltComplete(signal: seq<seq<real>>, T: nat, P: nat, ts: seq<real>, raws: seq<seq<Point>>, i: nat)
    requires IsGrid(signal, T, P) && TimestampsAvailable(ts, raws)
    requires i < |raws| && Accepted(ts, raws[i])
    ensures exists j :: 0 <= j < |Built(signal, T, P, ts, raws)| && Built(signal, T, P, ts, raws)[j].id == i
  {
    var n := |raws| - 1;
    assert TimestampsAvailable(ts, raws[..n]);
    var init := Built(signal, T, P, ts, raws[..n]);
    if i < n {
      assert raws[..n][i] == raws[i];
      BuiltComplete(signal, T, P, ts, raws[..n], i);
      var j :| 0 <= j < |init| && init[j].id == i;
      assert Built(signal, T, P, ts, raws)[j] == init[j];
    } else {
      assert Built(signal, T, P, ts, raws)[|init|].id == i;
    }
  }

  /** A point list whose first and last points carry the same timestamp,
      or a later one first, has speed 0 and never becomes a track. */
  lemma NoElapsedTimeIsDropped(signal: seq<seq<real>>, T: nat, P: nat, ts: seq<real>, raws: seq<seq<Point>>, i: nat)
    requires IsGrid(signal, T, P) && TimestampsAvailable(ts, raws)
    requires i < |raws| && |raws[i]| >= MinTrackLength
    requires TimeOf(ts, raws[i][|raws[i]| - 1].t) <= TimeOf(ts, raws[i][0].t)
    ensures Speed(ToTrackPoints(ts, raws[i])) == 0.0
    ensures forall j :: 0 <= j < |Built(signal, T, P, ts, raws)| ==> Built(signal, T, P, ts, raws)[j].id != i
  {
    forall j | 0 <= j < |Built(signal, T, P, ts, raws)|
      ensures Built(signal, T, P, ts, raws)[j].id != i
    {
      BuiltSound(signal, T, P, ts, raws, j);
    }
  }
}
