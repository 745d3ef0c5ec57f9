/** Statistics Aggregator: `create_fast_statistics` and `_empty_stats`
    (traffic_visualization.py:274-318). The local hour of each track's
    start time, which the Python code reads in the clock's time zone, is
    an input: hours[j] belongs to tracks[j]. */
module Statistics {
  import opened Common
  import opened Classifier
  import opened TrackBuilder

  const SecondsPerHour: real := 3600.0
  const HoursPerDay: nat := 24

  datatype Stats = Stats(
    totalVehicles: nat,
    avgSpeedKmh: real,
    congestionVehicles: nat,
    congestionPercent: real,
    peakHour: string,
    trafficIntensity: real,
    lightCount: nat,
    heavyCount: nat)

  // ---------------------------------------------------------------
  // Counts

  /** `vehicle_types.count(kind)`. */
  function CountKind(tracks: seq<Track>, kind: VehicleType): (n: nat)
    ensures n <= |tracks|
  {
    if tracks == [] then 0
    else CountKind(tracks[..|tracks| - 1], kind) + (if tracks[|tracks| - 1].kind == kind then 1 else 0)
  }

  /** `sum(1 for s in speeds if s < CONGESTION_SPEED_THRESHOLD)`. */
  function CountCongested(tracks: seq<Track>): (n: nat)
    ensures n <= |tracks|
  {
    if tracks == [] then 0
    else CountCongested(tracks[..|tracks| - 1]) + (if tracks[|tracks| - 1].speedKmh < CongestionSpeedThreshold then 1 else 0)
  }

  /** There are only two classes, so the two class counts add up to the total. */
  lemma {:induction false} ClassCountsAddUp(tracks: seq<Track>)
    ensures CountKind(tracks, Light) + CountKind(tracks, Heavy) == |tracks|
  {
    if tracks != [] {
      ClassCountsAddUp(tracks[..|tracks| - 1]);
    }
  }

  /** Every congested track is slower than 25 km/h and every other track is
      not: the congestion count is the size of the set of slow indices. */
  lemma {:induction false} CongestedAreTheSlowOnes(tracks: seq<Track>)
    ensures CountCongested(tracks) == |set j | 0 <= j < |tracks| && tracks[j].speedKmh < CongestionSpeedThreshold|
  {
    if tracks != [] {
      var n := |tracks| - 1;
      var init := tracks[..n];
      CongestedAreTheSlowOnes(init);
      var before := set j | 0 <= j < n && init[j].speedKmh < CongestionSpeedThreshold;
      var after := set j | 0 <= j < |tracks| && tracks[j].speedKmh < CongestionSpeedThreshold;
      if tracks[n].speedKmh < CongestionSpeedThreshold {
        assert after == before + {n};
      } else {
        assert after == before;
      }
    }
  }

  // ---------------------------------------------------------------
  // Speeds and times

  function Speeds(tracks: seq<Track>): (s: seq<real>)
    ensures |s| == |tracks| && forall j :: 0 <= j < |tracks| ==> s[j] == tracks[j].speedKmh
  {
    seq(|tracks|, j requires 0 <= j < |tracks| => tracks[j].speedKmh)
  }

  ghost predicate HavePoints(tracks: seq<Track>)
  {
    forall j :: 0 <= j < |tracks| ==> |tracks[j].points| > 0
  }

  /** `[t['points'][0]['time'] for t in tracks]`. */
  function StartTimes(tracks: seq<Track>): (s: seq<real>)
    requires HavePoints(tracks)
    ensures |s| == |tracks| && forall j :: 0 <= j < |tracks| ==> s[j] == tracks[j].points[0].time
  {
    seq(|tracks|, j requires 0 <= j < |tracks| && HavePoints(tracks) => tracks[j].points[0].time)
  }

  /** Python's `min` on a non-empty list. */
  function Least(s: seq<real>): (m: real)
    requires s != []
    ensures m in s && forall i :: 0 <= i < |s| ==> m <= s[i]
  {
    if |s| == 1 then s[0]
    else
      var m' := Least(s[..|s| - 1]);
      if s[|s| - 1] < m' then s[|s| - 1] else m'
  }

  /** Hours from the earliest to the latest track start (not end). */
  function DurationHours(tracks: seq<Track>): (d: real)
    requires tracks != [] && HavePoints(tracks)
    ensures d >= 0.0
    ensures d * SecondsPerHour == Max(StartTimes(tracks)) - Least(StartTimes(tracks))
    ensures d == 0.0 <==> forall j :: 0 <= j < |tracks| ==> tracks[j].points[0].time == tracks[0].points[0].time
  {
    var starts := StartTimes(tracks);
    assert Least(starts) <= starts[0] <= Max(starts);
    (Max(starts) - Least(starts)) / SecondsPerHour
  }

  /** Vehicles per hour, 0 when the duration is not positive. */
  function Intensity(total: nat, durationHours: real): (v: real)
    ensures durationHours <= 0.0 ==> v == 0.0
    ensures durationHours > 0.0 ==> v * durationHours == total as real
  {
    if durationHours > 0.0 then total as real / durationHours else 0.0
  }

  /** `congestion_count / len(tracks) * 100`. */
  function Percent(part: nat, total: nat): (r: real)
    requires total > 0
    ensures part <= total ==> 0.0 <= r <= 100.0
    ensures r * (total as real) == part as real * 100.0
  {
    assert (part as real) / (total as real) * (total as real) == part as real;
    part as real / total as real * 100.0
  }

  // ---------------------------------------------------------------
  // Peak hour

  /** How many entries of s equal h: `hourly_counts[h]`. */
  function Occurrences(s: seq<nat>, h: nat): (n: nat)
    ensures n <= |s|
  {
    if s == [] then 0
    else Occurrences(s[..|s| - 1], h) + (if s[|s| - 1] == h then 1 else 0)
  }

  /** An hour that never occurs has count 0. */
  lemma {:induction false} AbsentHasNoOccurrences(s: seq<nat>, h: nat)
    requires h !in s
    ensures Occurrences(s, h) == 0
  {
    if s != [] {
      assert h !in s[..|s| - 1];
      AbsentHasNoOccurrences(s[..|s| - 1], h);
    }
  }

  /** The keys of `hourly_counts` in the dict's insertion order: each hour
      once, in the order of its first appearance. */
  function FirstSeen(s: seq<nat>): (d: seq<nat>)
    ensures forall h :: h in d <==> h in s
  {
    if s == [] then []
    else
      var d' := FirstSeen(s[..|s| - 1]);
      if s[|s| - 1] in d' then d' else d' + [s[|s| - 1]]
  }

  /** `max(keys, key=counts.get)`: the first key of greatest count, since
      `max` replaces its candidate only on a strictly greater count. */
  function FirstMax(keys: seq<nat>, hours: seq<nat>): (b: nat)
    requires keys != []
    ensures b in keys
  {
    if |keys| == 1 then keys[0]
    else
      var b' := FirstMax(keys[..|keys| - 1], hours);
      var x := keys[|keys| - 1];
      if Occurrences(hours, x) > Occurrences(hours, b') then x else b'
  }

  function PeakHour(hours: seq<nat>): (p: nat)
    ensures hours != [] ==> p in hours
  {
    if hours == [] then 0 else FirstMax(FirstSeen(hours), hours)
  }

  ghost predicate NoDuplicates(d: seq<nat>)
  {
    forall a, b :: 0 <= a < b < |d| ==> d[a] != d[b]
  }

  /** Wherever s holds d[b], every earlier entry d[a] has already occurred. */
  ghost predicate ListedInOrder(s: seq<nat>, d: seq<nat>)
  {
    forall a, b, k :: 0 <= a < b < |d| && 0 <= k < |s| && s[k] == d[b] ==> d[a] in s[..k]
  }

  /** FirstSeen lists each hour once, and an hour listed later appears in s
      only after the first appearance of every hour listed before it. */
  lemma {:induction false} FirstSeenOrder(s: seq<nat>)
    ensures NoDuplicates(FirstSeen(s)) && ListedInOrder(s, FirstSeen(s))
  {
    if s != [] {
      var n := |s| - 1;
      var s', x := s[..n], s[n];
      var d' := FirstSeen(s');
      var d := FirstSeen(s);
      FirstSeenOrder(s');
      assert NoDuplicates(d') && ListedInOrder(s', d');
      assert x in d' <==> x in s';
      forall a, b, k | 0 <= a < b < |d| && 0 <= k < |s| && s[k] == d[b]
        ensures d[a] in s[..k]
      {
        if x in d' {
          assert d == d';
          if k < n {
            assert s'[k] == d'[b];
            assert d'[a] in s'[..k];
            assert s[..k] == s'[..k];
          } else {
            var k' :| 0 <= k' < n && s'[k'] == x;
            assert d'[a] in s'[..k'];
            assert s[..k] == s';
          }
        } else {
          assert d == d' + [x];
          if b < |d'| {
            assert d'[b] in s';
            assert k < n;
            assert s'[k] == d'[b];
            assert d'[a] in s'[..k];
            assert s[..k] == s'[..k];
          } else {
            assert k == n;
            assert d'[a] in s';
            assert s[..k] == s';
          }
        }
      }
    }
  }

  /** The first maximum is one of the keys, and its count is at least
      every key's count. */
  lemma {:induction false} FirstMaxIsMaximum(keys: seq<nat>, hours: seq<nat>)
    requires keys != []
    ensures forall a :: 0 <= a < |keys| ==> Occurrences(hours, keys[a]) <= Occurrences(hours, FirstMax(keys, hours))
  {
    if |keys| > 1 {
      var n := |keys| - 1;
      var ks' := keys[..n];
      FirstMaxIsMaximum(ks', hours);
      assert forall a :: 0 <= a < n ==> keys[a] == ks'[a];
    }
  }

  /** No key before the first maximum has its count. */
  lemma {:induction false} FirstMaxIsFirst(keys: seq<nat>, hours: seq<nat>, a: nat)
    requires a < |keys|
    requires Occurrences(hours, keys[a]) == Occurrences(hours, FirstMax(keys, hours))
    ensures FirstMax(keys, hours) in keys[..a + 1]
  {
    var n := |keys| - 1;
    if a == n {
      FirstMaxIsMaximum(keys, hours);
      assert keys[..a + 1] == keys;
    } else {
      var ks' := keys[..n];
      var b' := FirstMax(ks', hours);
      FirstMaxIsMaximum(ks', hours);
      assert keys[a] == ks'[a];
      if Occurrences(hours, keys[n]) > Occurrences(hours, b') {
        assert false;
      }
      FirstMaxIsFirst(ks', hours, a);
      assert ks'[..a + 1] == keys[..a + 1];
    }
  }

  /** The peak hour's count is at least every hour's count. */
  lemma PeakHourIsMode(hours: seq<nat>, h: nat)
    requires hours != []
    ensures Occurrences(hours, h) <= Occurrences(hours, PeakHour(hours))
  {
    var d := FirstSeen(hours);
    assert hours[0] in d;
    FirstMaxIsMaximum(d, hours);
    if h in hours {
      var a :| 0 <= a < |d| && d[a] == h;
    } else {
      AbsentHasNoOccurrences(hours, h);
    }
  }

  /** An hour tied with the peak hour never appears before the peak hour
      has: among equally frequent hours the one seen first wins. */
  lemma PeakHourTieBreak(hours: seq<nat>, k: nat)
    requires k < |hours|
    requires hours[k] != PeakHour(hours)
    requires Occurrences(hours, hours[k]) == Occurrences(hours, PeakHour(hours))
    ensures PeakHour(hours) in hours[..k]
  {
    var d := FirstSeen(hours);
    var peak := PeakHour(hours);
    assert peak == FirstMax(d, hours);
    FirstSeenOrder(hours);
    assert hours[k] in d;
    var b :| 0 <= b < |d| && d[b] == hours[k];
    FirstMaxIsFirst(d, hours, b);
    var c :| 0 <= c < b + 1 && d[..b + 1][c] == peak;
    assert d[c] == peak;
    assert c != b;
  }

  /** The `hourly_counts[hour] += 1` loop: the dictionary maps every hour
      that occurs to its count, and its keys in insertion order are the
      hours in order of first appearance. */
  method CountHours(hours: seq<nat>) returns (counts: map<nat, nat>, keys: seq<nat>)
    ensures keys == FirstSeen(hours)
    ensures forall h :: h in counts <==> h in keys
    ensures forall h :: h in counts ==> counts[h] == Occurrences(hours, h)
  {
    counts := map[];
    keys := [];
    var i := 0;
    while i < |hours|
      invariant 0 <= i <= |hours|
      invariant keys == FirstSeen(hours[..i])
      invariant forall h :: h in counts <==> h in keys
      invariant forall h :: h in counts ==> counts[h] == Occurrences(hours[..i], h)
    {
      var h := hours[i];
      assert hours[..i + 1][..i] == hours[..i];
      if h in counts {
        counts := counts[h := counts[h] + 1];
      } else {
        AbsentHasNoOccurrences(hours[..i], h);
        counts := counts[h := 1];
        keys := keys + [h];
      }
      i := i + 1;
    }
    assert hours[..i] == hours;
  }

  /** `max(hourly_counts, key=hourly_counts.get)` over the keys in
      insertion order. */
  method FirstMaxOf(counts: map<nat, nat>, keys: seq<nat>, ghost hours: seq<nat>) returns (peak: nat)
    requires keys != []
    requires forall h :: h in keys ==> h in counts && counts[h] == Occurrences(hours, h)
    ensures peak == FirstMax(keys, hours)
  {
    peak := keys[0];
    var j := 1;
    while j < |keys|
      invariant 1 <= j <= |keys|
      invariant peak == FirstMax(keys[..j], hours)
    {
      assert keys[..j + 1][..j] == keys[..j];
      if counts[keys[j]] > counts[peak] {
        peak := keys[j];
      }
      j := j + 1;
    }
    assert keys[..j] == keys;
  }

  /** The dict loop of `create_fast_statistics` followed by `max`; 0 when
      there are no tracks. */
  method PeakHourOf(hours: seq<nat>) returns (peak: nat)
    ensures peak == PeakHour(hours)
  {
    var counts, keys := CountHours(hours);
    if keys == [] {
      return 0;
    }
    peak := FirstMaxOf(counts, keys, hours);
  }

  // ---------------------------------------------------------------
  // Peak-hour label

  function DigitChar(d: nat): char
    requires d < 10
  {
    ('0' as int + d) as char
  }

  /** Python's `f"{n:02d}"` for n below 100. */
  function TwoDigits(n: nat): string
    requires n < 100
  {
    [DigitChar(n / 10), DigitChar(n % 10)]
  }

  /** `f"{peak_hour:02d}:00-{peak_hour+1:02d}:00"`. */
  function HourLabel(h: nat): string
    requires h < HoursPerDay
  {
    TwoDigits(h) + ":00-" + TwoDigits(h + 1) + ":00"
  }

  function DigitValue(c: char): int
  {
    c as int - '0' as int
  }

  predicate IsDigit(c: char)
  {
    '0' <= c <= '9'
  }

  /** Eleven characters: two decimal digits reading as h, ":00-", two
      decimal digits reading as h + 1, and ":00". */
  ghost predicate LabelReadsAs(s: string, h: nat)
  {
    && |s| == 11
    && IsDigit(s[0]) && IsDigit(s[1]) && IsDigit(s[6]) && IsDigit(s[7])
    && 10 * DigitValue(s[0]) + DigitValue(s[1]) == h
    && s[2..6] == ":00-"
    && 10 * DigitValue(s[6]) + DigitValue(s[7]) == h + 1
    && s[8..] == ":00"
  }

  /** The label of hour h reads back as hour h and hour h + 1, so it tells
      hours apart; hour 23 gives "23:00-24:00". */
  lemma HourLabelReadsBack(h: nat)
    requires h < HoursPerDay
    ensures LabelReadsAs(HourLabel(h), h)
  {
  }

  /** Two decimal digits name a number below 100 in exactly one way. */
  lemma DigitsDetermined(c0: char, c1: char, n: nat)
    requires IsDigit(c0) && IsDigit(c1) && 10 * DigitValue(c0) + DigitValue(c1) == n
    ensures n < 100 && [c0, c1] == TwoDigits(n)
  {
    var d0, d1 := DigitValue(c0), DigitValue(c1);
    assert 0 <= d1 < 10 && 0 <= d0 < 10;
    assert n / 10 == d0 && n % 10 == d1;
    assert DigitChar(d0) == c0 && DigitChar(d1) == c1;
  }

  /** Conversely, a string that reads as hour h is the label of hour h. */
  lemma {:induction false} LabelReadsAsIsHourLabel(s: string, h: nat)
    requires h < HoursPerDay && LabelReadsAs(s, h)
    ensures s == HourLabel(h)
  {
    DigitsDetermined(s[0], s[1], h);
    DigitsDetermined(s[6], s[7], h + 1);
    assert s == [s[0], s[1]] + s[2..6] + [s[6], s[7]] + s[8..];
  }

  lemma HourLabelInjective(h1: nat, h2: nat)
    requires h1 < HoursPerDay && h2 < HoursPerDay
    requires HourLabel(h1) == HourLabel(h2)
    ensures h1 == h2
  {
    HourLabelReadsBack(h1);
    HourLabelReadsBack(h2);
  }

  lemma LastHourLabel()
    ensures HourLabel(23) == "23:00-24:00"
    ensures HourLabel(0) == "00:00-01:00"
  {
  }

  // ---------------------------------------------------------------
  // The statistics record

  /** `_empty_stats`: the record for a run without tracks. Its counts are
      what the counting functions give for no tracks, and its label is
      that of the peak-hour fallback 0. */
  function EmptyStats(): (s: Stats)
    ensures s.totalVehicles == 0
    ensures s.lightCount == CountKind([], Light) && s.heavyCount == CountKind([], Heavy)
    ensures s.congestionVehicles == CountCongested([])
    ensures s.peakHour == HourLabel(PeakHour([]))
  {
    Stats(0, 0.0, 0, 0.0, "00:00-01:00", 0.0, 0, 0)
  }

  ghost predicate HoursFor(tracks: seq<Track>, hours: seq<nat>)
  {
    |hours| == |tracks| && forall j :: 0 <= j < |hours| ==> hours[j] < HoursPerDay
  }

  /** The record for a non-empty track list. */
  function StatsOf(tracks: seq<Track>, hours: seq<nat>): Stats
    requires tracks != [] && HavePoints(tracks) && HoursFor(tracks, hours)
  {
    var total := |tracks|;
    var congestion := CountCongested(tracks);
    Stats(
      total,
      Mean(Speeds(tracks)),
      congestion,
      Percent(congestion, total),
      HourLabel(PeakHour(hours)),
      Intensity(total, DurationHours(tracks)),
      CountKind(tracks, Light),
      CountKind(tracks, Heavy))
  }

  /** `create_fast_statistics`. The fallback to `timestamps[0]` and
      `timestamps[-1]` for an empty start-time list cannot be reached:
      the empty track list returns early. */
  method ComputeStatistics(tracks: seq<Track>, hours: seq<nat>) returns (s: Stats)
    requires HavePoints(tracks) && HoursFor(tracks, hours)
    ensures tracks == [] ==> s == EmptyStats()
    ensures tracks != [] ==> s == StatsOf(tracks, hours)
  {
    if tracks == [] {
      return EmptyStats();
    }
    var speeds := Speeds(tracks);
    var lightCount, heavyCount := CountKind(tracks, Light), CountKind(tracks, Heavy);
    var congestion := CountCongested(tracks);
    var duration := DurationHours(tracks);
    var peak := PeakHourOf(hours);
    s := Stats(
      |tracks|,
      Mean(speeds),
      congestion,
      Percent(congestion, |tracks|),
      HourLabel(peak),
      Intensity(|tracks|, duration),
      lightCount,
      heavyCount);
  }

  /** The counts of the record: the class counts add up to the total, the
      congested tracks are exactly the ones below 25 km/h and at most all
      of them, and the percentage lies in [0, 100]. */
  lemma StatsCounts(tracks: seq<Track>, hours: seq<nat>)
    requires tracks != [] && HavePoints(tracks) && HoursFor(tracks, hours)
    ensures var s := StatsOf(tracks, hours);
      && s.totalVehicles == |tracks|
      && s.lightCount + s.heavyCount == s.totalVehicles
      && s.congestionVehicles <= s.totalVehicles
      && s.congestionVehicles == |set j | 0 <= j < |tracks| && tracks[j].speedKmh < CongestionSpeedThreshold|
      && 0.0 <= s.congestionPercent <= 100.0
  {
    ClassCountsAddUp(tracks);
    CongestedAreTheSlowOnes(tracks);
  }

  /** The throughput is never negative, and is 0 when every track starts
      at the same time (duration 0). */
  lemma StatsThroughput(tracks: seq<Track>, hours: seq<nat>)
    requires tracks != [] && HavePoints(tracks) && HoursFor(tracks, hours)
    ensures StatsOf(tracks, hours).trafficIntensity >= 0.0
    ensures (forall j :: 0 <= j < |tracks| ==> tracks[j].points[0].time == tracks[0].points[0].time)
      ==> StatsOf(tracks, hours).trafficIntensity == 0.0
  {
    var d := DurationHours(tracks);
    if d > 0.0 {
      assert |tracks| as real / d >= 0.0;
    }
  }

  /** The label is the peak hour's, and the peak hour's count is at least
      every hour's. */
  lemma StatsPeak(tracks: seq<Track>, hours: seq<nat>, h: nat)
    requires tracks != [] && HavePoints(tracks) && HoursFor(tracks, hours)
    ensures StatsOf(tracks, hours).peakHour == HourLabel(PeakHour(hours))
    ensures Occurrences(hours, h) <= Occurrences(hours, PeakHour(hours))
  {
    PeakHourIsMode(hours, h);
  }

  /** Over speeds that all lie in [5, 120] km/h, the average does too. */
  lemma AverageSpeedInBand(tracks: seq<Track>, hours: seq<nat>)
    requires tracks != [] && HavePoints(tracks) && HoursFor(tracks, hours)
    requires forall j :: 0 <= j < |tracks| ==> InSpeedBand(tracks[j].speedKmh)
    ensures MinSpeedKmh <= StatsOf(tracks, hours).avgSpeedKmh <= MaxSpeedKmh
  {
    MeanBounds(Speeds(tracks), MinSpeedKmh, MaxSpeedKmh);
  }

  /** The record the builder's tracks produce: every built track has its
      points, so the statistics are defined, and the average speed lies in
      [5, 120] km/h. */
  lemma BuiltTracksStatistics(signal: seq<seq<real>>, T: nat, P: nat, ts: seq<real>, raws: seq<seq<Point>>, hours: seq<nat>)
    requires IsGrid(signal, T, P) && TimestampsAvailable(ts, raws)
    requires Built(signal, T, P, ts, raws) != []
    requires HoursFor(Built(signal, T, P, ts, raws), hours)
    ensures HavePoints(Built(signal, T, P, ts, raws))
    ensures MinSpeedKmh <= StatsOf(Built(signal, T, P, ts, raws), hours).avgSpeedKmh <= MaxSpeedKmh
  {
    var tracks := Built(signal, T, P, ts, raws);
    forall j | 0 <= j < |tracks|
      ensures |tracks[j].points| > 0 && InSpeedBand(tracks[j].speedKmh)
    {
      BuiltSound(signal, T, P, ts, raws, j);
    }
    AverageSpeedInBand(tracks, hours);
  }
}
