/** The value of `delta`, `increase` and `rate` over one window of points: the
    definition both the Go function and the Rust aggregate are compared with.
    Times are integer ticks; `unit` is the number of ticks per second. */
module Extrapolation {
  import opened Samples

  /** What counter resets add back: the value before every drop, starting from `last`. */
  function CounterCorrection(pts: seq<Point>, last: real): real {
    if pts == [] then 0.0
    else (if pts[0].v < last then last else 0.0) + CounterCorrection(pts[1..], pts[0].v)
  }

  /** A window `extrapolatedRate` has a value for: at least two points, in time order, inside [lo, hi]. */
  predicate Sampleable(pts: seq<Point>, lo: int, hi: int) {
    && |pts| >= 2
    && AscendingPoints(pts)
    && lo <= pts[0].t && pts[|pts| - 1].t <= hi
  }

  function RawIncrease(pts: seq<Point>, isCounter: bool): real
    requires pts != []
  {
    pts[|pts| - 1].v - pts[0].v + (if isCounter then CounterCorrection(pts, 0.0) else 0.0)
  }

  function Seconds(ticks: int, unit: real): real
    requires unit > 0.0
  {
    ticks as real / unit
  }

  function Sampled(pts: seq<Point>, unit: real): real
    requires pts != [] && unit > 0.0
  {
    Seconds(pts[|pts| - 1].t - pts[0].t, unit)
  }

  function AverageGap(pts: seq<Point>, unit: real): real
    requires |pts| >= 2 && unit > 0.0
  {
    Sampled(pts, unit) / (|pts| - 1) as real
  }

  /** Seconds from the window start to the first point, cut short where a counter would reach zero. */
  function ToStart(pts: seq<Point>, lo: int, unit: real, isCounter: bool): real
    requires pts != [] && unit > 0.0
  {
    var d := Seconds(pts[0].t - lo, unit);
    var raw := RawIncrease(pts, isCounter);
    if isCounter && raw > 0.0 && pts[0].v >= 0.0 then
      var toZero := Sampled(pts, unit) * (pts[0].v / raw);
      if toZero < d then toZero else d
    else d
  }

  function Stretch(d: real, gap: real): real {
    if d < gap * 1.1 then d else gap / 2.0
  }

  /** The interval the increase is stretched to. */
  function ExtendedInterval(pts: seq<Point>, lo: int, hi: int, unit: real, isCounter: bool): real
    requires |pts| >= 2 && unit > 0.0
  {
    Sampled(pts, unit)
    + Stretch(ToStart(pts, lo, unit, isCounter), AverageGap(pts, unit))
    + Stretch(Seconds(hi - pts[|pts| - 1].t, unit), AverageGap(pts, unit))
  }

  lemma SampledPositive(pts: seq<Point>, lo: int, hi: int, unit: real)
    requires Sampleable(pts, lo, hi) && unit > 0.0
    ensures Sampled(pts, unit) > 0.0 && AverageGap(pts, unit) > 0.0
  {
  }

  /** The extrapolated increase over [lo, hi], before any division by the range. */
  function Extrapolated(pts: seq<Point>, lo: int, hi: int, unit: real, isCounter: bool): real
    requires Sampleable(pts, lo, hi) && unit > 0.0
  {
    SampledPositive(pts, lo, hi, unit);
    RawIncrease(pts, isCounter) * (ExtendedInterval(pts, lo, hi, unit, isCounter) / Sampled(pts, unit))
  }

  lemma RatioSum(a: real, b: real, unit: real)
    requires unit > 0.0
    ensures a / unit + b / unit == (a + b) / unit
  {
  }

  lemma ToStartBounds(pts: seq<Point>, lo: int, hi: int, unit: real, isCounter: bool)
    requires Sampleable(pts, lo, hi) && unit > 0.0
    ensures 0.0 <= ToStart(pts, lo, unit, isCounter) <= Seconds(pts[0].t - lo, unit)
  {
    SampledPositive(pts, lo, hi, unit);
    var raw := RawIncrease(pts, isCounter);
    if isCounter && raw > 0.0 && pts[0].v >= 0.0 {
      assert pts[0].v / raw >= 0.0;
    }
  }

  /** Extrapolation only ever lengthens the sampled interval and never leaves the window. */
  lemma ExtrapolationStaysInWindow(pts: seq<Point>, lo: int, hi: int, unit: real, isCounter: bool)
    requires Sampleable(pts, lo, hi) && unit > 0.0
    ensures Sampled(pts, unit) <= ExtendedInterval(pts, lo, hi, unit, isCounter) <= Seconds(hi - lo, unit)
  {
    SampledPositive(pts, lo, hi, unit);
    ToStartBounds(pts, lo, hi, unit, isCounter);
    var last := pts[|pts| - 1].t;
    var gap := AverageGap(pts, unit);
    var toEnd := Seconds(hi - last, unit);
    assert toEnd >= 0.0;
    assert 0.0 <= Stretch(toEnd, gap) <= toEnd;
    assert Stretch(ToStart(pts, lo, unit, isCounter), gap) <= Seconds(pts[0].t - lo, unit);
    RatioSum((pts[0].t - lo) as real, (last - pts[0].t) as real, unit);
    RatioSum((last - lo) as real, (hi - last) as real, unit);
    assert Seconds(pts[0].t - lo, unit) + Sampled(pts, unit) == Seconds(last - lo, unit);
  }

  lemma {:induction false} CorrectionCoversDrops(pts: seq<Point>, last: real)
    requires last >= 0.0
    requires forall p :: p in pts ==> p.v >= 0.0
    ensures pts != [] ==> pts[|pts| - 1].v + CounterCorrection(pts, last) >= last
    ensures CounterCorrection(pts, last) >= 0.0
  {
    if |pts| > 0 {
      CorrectionCoversDrops(pts[1..], pts[0].v);
    }
  }

  /** A counter of non-negative values never has a negative increase, whatever its resets. */
  lemma CounterIncreaseNonNegative(pts: seq<Point>, lo: int, hi: int, unit: real)
    requires Sampleable(pts, lo, hi) && unit > 0.0
    requires forall p :: p in pts ==> p.v >= 0.0
    ensures Extrapolated(pts, lo, hi, unit, true) >= 0.0
  {
    CorrectionCoversDrops(pts[1..], pts[0].v);
    assert pts[1..][|pts| - 2] == pts[|pts| - 1];
    assert RawIncrease(pts, true) >= 0.0;
    SampledPositive(pts, lo, hi, unit);
    ExtrapolationStaysInWindow(pts, lo, hi, unit, true);
    assert ExtendedInterval(pts, lo, hi, unit, true) / Sampled(pts, unit) >= 0.0;
  }

  /** A counter is never extrapolated to a negative value at the start of the window. */
  lemma CounterStartNonNegative(pts: seq<Point>, lo: int, hi: int, unit: real)
    requires Sampleable(pts, lo, hi) && unit > 0.0
    requires RawIncrease(pts, true) > 0.0 && pts[0].v >= 0.0
    ensures Sampled(pts, unit) > 0.0
    ensures var back := Stretch(ToStart(pts, lo, unit, true), AverageGap(pts, unit));
            pts[0].v - RawIncrease(pts, true) / Sampled(pts, unit) * back >= 0.0
  {
    SampledPositive(pts, lo, hi, unit);
    ToStartBounds(pts, lo, hi, unit, true);
    var raw, sampled, v := RawIncrease(pts, true), Sampled(pts, unit), pts[0].v;
    var back := Stretch(ToStart(pts, lo, unit, true), AverageGap(pts, unit));
    var toZero := sampled * (v / raw);
    assert back <= ToStart(pts, lo, unit, true) <= toZero;
    SlopeAtZero(raw, sampled, v, back);
  }

  lemma SlopeAtZero(raw: real, sampled: real, v: real, back: real)
    requires raw > 0.0 && sampled > 0.0
    requires back <= sampled * (v / raw)
    ensures v - raw / sampled * back >= 0.0
  {
    var slope := raw / sampled;
    assert slope > 0.0;
    assert slope * back <= slope * (sampled * (v / raw));
    calc {
      slope * (sampled * (v / raw));
      (slope * sampled) * (v / raw);
      { assert slope * sampled == raw; }
      raw * (v / raw);
      v;
    }
  }

  /** Points with every time multiplied by `k`: the same points on a finer clock. */
  function Rescaled(pts: seq<Point>, k: int): (r: seq<Point>)
    ensures |r| == |pts|
    ensures forall i :: 0 <= i < |pts| ==> r[i] == Point(k * pts[i].t, pts[i].v)
  {
    seq(|pts|, i requires 0 <= i < |pts| => Point(k * pts[i].t, pts[i].v))
  }

  lemma {:induction false} CorrectionIgnoresTime(a: seq<Point>, b: seq<Point>, last: real)
    requires |a| == |b|
    requires forall i :: 0 <= i < |a| ==> a[i].v == b[i].v
    ensures CounterCorrection(a, last) == CounterCorrection(b, last)
  {
    if a != [] {
      CorrectionIgnoresTime(a[1..], b[1..], a[0].v);
    }
  }

  lemma SecondsRescaled(ticks: int)
    ensures Seconds(1000 * ticks, 1_000_000.0) == Seconds(ticks, 1000.0)
  {
    assert (1000 * ticks) as real == 1000.0 * (ticks as real);
  }

  lemma SampledUnitFree(pts: seq<Point>)
    requires |pts| >= 2
    ensures Sampled(Rescaled(pts, 1000), 1_000_000.0) == Sampled(pts, 1000.0)
    ensures AverageGap(Rescaled(pts, 1000), 1_000_000.0) == AverageGap(pts, 1000.0)
  {
    var us, n := Rescaled(pts, 1000), |pts|;
    assert us[n - 1].t - us[0].t == 1000 * (pts[n - 1].t - pts[0].t);
    SecondsRescaled(pts[n - 1].t - pts[0].t);
  }

  lemma ToStartUnitFree(pts: seq<Point>, lo: int, isCounter: bool)
    requires |pts| >= 2
    ensures RawIncrease(Rescaled(pts, 1000), isCounter) == RawIncrease(pts, isCounter)
    ensures ToStart(Rescaled(pts, 1000), 1000 * lo, 1_000_000.0, isCounter) == ToStart(pts, lo, 1000.0, isCounter)
  {
    var us := Rescaled(pts, 1000);
    CorrectionIgnoresTime(us, pts, 0.0);
    SampledUnitFree(pts);
    assert us[0].t - 1000 * lo == 1000 * (pts[0].t - lo);
    SecondsRescaled(pts[0].t - lo);
  }

  lemma ExtendedUnitFree(pts: seq<Point>, lo: int, hi: int, isCounter: bool)
    requires |pts| >= 2
    ensures ExtendedInterval(Rescaled(pts, 1000), 1000 * lo, 1000 * hi, 1_000_000.0, isCounter)
         == ExtendedInterval(pts, lo, hi, 1000.0, isCounter)
  {
    var us, n := Rescaled(pts, 1000), |pts|;
    SampledUnitFree(pts);
    ToStartUnitFree(pts, lo, isCounter);
    assert 1000 * hi - us[n - 1].t == 1000 * (hi - pts[n - 1].t);
    SecondsRescaled(hi - pts[n - 1].t);
  }

  /** The extrapolated value does not depend on whether time is counted in
      milliseconds, as the Go engine does, or in microseconds, as the SQL
      aggregate does. */
  lemma ExtrapolatedUnitFree(pts: seq<Point>, lo: int, hi: int, isCounter: bool)
    requires Sampleable(pts, lo, hi)
    ensures Sampleable(Rescaled(pts, 1000), 1000 * lo, 1000 * hi)
    ensures Extrapolated(Rescaled(pts, 1000), 1000 * lo, 1000 * hi, 1_000_000.0, isCounter)
         == Extrapolated(pts, lo, hi, 1000.0, isCounter)
  {
    SampledUnitFree(pts);
    ToStartUnitFree(pts, lo, isCounter);
    ExtendedUnitFree(pts, lo, hi, isCounter);
  }
}
