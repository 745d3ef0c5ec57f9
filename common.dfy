/** Shared vocabulary of the traffic engine: the engine's constants, the
    result wrapper for the one failure the core can raise, grids, the
    integer conversions Python's `int(...)` performs, and the sum, mean and
    maximum that numpy computes over an amplitude list. */
module Common {

  // Named constants of traffic_visualization.py (lines 29-32).
  const MinTrackLength: nat := 8
  const MinSpeedKmh: real := 5.0
  const MaxSpeedKmh: real := 120.0
  const CongestionSpeedThreshold: real := 25.0

  /** The only error the modelled core raises: indexing an empty timestamp
      array. The surrounding `try` turns it into `{"success": False}`. */
  datatype Error = EmptyTimestamps

  datatype Result<T> = Success(value: T) | Failure(error: Error)

  /** A candidate point: integer time index and real position, measured
      in column indices of the recording. */
  datatype Point = Point(t: nat, x: real)

  /** A grid with T rows of P cells each, as numpy's 2-D arrays are. */
  ghost predicate IsGrid<X>(g: seq<seq<X>>, T: nat, P: nat)
  {
    |g| == T && forall t :: 0 <= t < T ==> |g[t]| == P
  }

  function Min(a: nat, b: nat): nat { if a < b then a else b }

  function Abs(x: real): (r: real)
    ensures r >= 0.0 && (r == x || r == -x)
  {
    if x < 0.0 then -x else x
  }

  /** Python's `int(x)` on a float: truncation toward zero. */
  function Trunc(x: real): (r: int)
    ensures x >= 0.0 ==> r == x.Floor
    ensures Abs(r as real) <= Abs(x) < Abs(r as real) + 1.0
    ensures (x >= 0.0 ==> r >= 0) && (x <= 0.0 ==> r <= 0)
  {
    if x >= 0.0 then x.Floor else -((-x).Floor)
  }

  function Sum(s: seq<real>): real
  {
    if s == [] then 0.0 else Sum(s[..|s| - 1]) + s[|s| - 1]
  }

  /** numpy's `mean`, on exact reals. */
  function Mean(s: seq<real>): real
    requires s != []
  {
    Sum(s) / (|s| as real)
  }

  /** numpy's `max`. */
  function Max(s: seq<real>): (m: real)
    requires s != []
    ensures m in s
    ensures forall i :: 0 <= i < |s| ==> s[i] <= m
  {
    if |s| == 1 then s[0]
    else
      var m' := Max(s[..|s| - 1]);
      if s[|s| - 1] > m' then s[|s| - 1] else m'
  }

  /** A sum of n values each at least lo is at least lo*n. */
  lemma {:induction false} SumAtLeast(s: seq<real>, lo: real)
    requires forall i :: 0 <= i < |s| ==> lo <= s[i]
    ensures lo * (|s| as real) <= Sum(s)
  {
    if s != [] {
      SumAtLeast(s[..|s| - 1], lo);
    }
  }

  /** A sum of n values each at most hi is at most hi*n. */
  lemma {:induction false} SumAtMost(s: seq<real>, hi: real)
    requires forall i :: 0 <= i < |s| ==> s[i] <= hi
    ensures Sum(s) <= hi * (|s| as real)
  {
    if s != [] {
      SumAtMost(s[..|s| - 1], hi);
    }
  }

  /** Dividing by a positive n keeps a bound a <= hi * n as a / n <= hi. */
  lemma QuotientAtMost(a: real, n: real, hi: real)
    requires n > 0.0 && a <= hi * n
    ensures a / n <= hi
  {
  }

  /** Dividing by a positive n keeps a bound lo * n <= a as lo <= a / n. */
  lemma QuotientAtLeast(a: real, n: real, lo: real)
    requires n > 0.0 && lo * n <= a
    ensures lo <= a / n
  {
  }

  /** The mean of values each within [lo, hi] lies within [lo, hi]. */
  lemma MeanBounds(s: seq<real>, lo: real, hi: real)
    requires s != []
    requires forall i :: 0 <= i < |s| ==> lo <= s[i] <= hi
    ensures lo <= Mean(s) <= hi
  {
    SumAtLeast(s, lo);
    SumAtMost(s, hi);
    QuotientAtLeast(Sum(s), |s| as real, lo);
    QuotientAtMost(Sum(s), |s| as real, hi);
  }

  /** The mean never exceeds the maximum. */
  lemma MeanAtMostMax(s: seq<real>)
    requires s != []
    ensures Mean(s) <= Max(s)
  {
    SumAtMost(s, Max(s));
    QuotientAtMost(Sum(s), |s| as real, Max(s));
  }
}
