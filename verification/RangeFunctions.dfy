/** `delta`, `increase` and `rate` as the Go engine computes them. */
module RangeFunctions {
  import opened Common
  import opened Samples
  import opened Extrapolation

  import opened MatrixWindow

  const MILLIS: real := 1000.0

  /** The value over the window ending at `ts - offset`: nothing below two points. */
  function RateValue(pts: seq<Point>, ts: int, range: int, offset: int, isCounter: bool, isRate: bool): Option<real>
    requires range > 0
  {
    var lo, hi := ts - offset - range, ts - offset;
    if Sampleable(pts, lo, hi) then
      var v := Extrapolated(pts, lo, hi, MILLIS, isCounter);
      Some(if isRate then v / Seconds(range, MILLIS) else v)
    else None
  }

  function RateFn(range: int, offset: int, isCounter: bool, isRate: bool): RangeFn
    requires range > 0
  {
    (pts: seq<Point>, ts: int) => RateValue(pts, ts, range, offset, isCounter, isRate)
  }

  /** The loop over the points: the last value, and for a counter what it had
      reached before each of its resets, summed. */
  method LastAndCorrection(points: seq<Point>, isCounter: bool) returns (counterCorrection: real, lastValue: real)
    ensures points != [] ==> lastValue == points[|points| - 1].v
    ensures counterCorrection == if isCounter then CounterCorrection(points, 0.0) else 0.0
  {
    counterCorrection, lastValue := 0.0, 0.0;
    for i := 0 to |points|
      invariant i > 0 ==> lastValue == points[i - 1].v
      invariant i == 0 ==> lastValue == 0.0
      invariant isCounter ==> counterCorrection + CounterCorrection(points[i..], lastValue) == CounterCorrection(points, 0.0)
      invariant !isCounter ==> counterCorrection == 0.0
    {
      if isCounter && points[i].v < lastValue {
        counterCorrection := counterCorrection + lastValue;
      }
      lastValue := points[i].v;
    }
  }

  /** The Go function itself, on the points of a window. */
  method ExtrapolatedRate(points: seq<Point>, ts: int, range: int, offset: int, isCounter: bool, isRate: bool)
      returns (r: Option<real>)
    requires range > 0
    requires |points| >= 2 ==> Sampleable(points, ts - offset - range, ts - offset)
    ensures r == RateValue(points, ts, range, offset, isCounter, isRate)
  {
    var rangeStart := ts - (range + offset);
    var rangeEnd := ts - offset;
    if |points| < 2 {
      return None;
    }
    hide CounterCorrection, AscendingPoints;
    var counterCorrection, lastValue := LastAndCorrection(points, isCounter);
    var first, last := points[0], points[|points| - 1];
    var resultValue := lastValue - first.v + counterCorrection;
    SampledPositive(points, rangeStart, rangeEnd, MILLIS);
    assert resultValue == RawIncrease(points, isCounter);
    hide RawIncrease;

    var durationToStart := (first.t - rangeStart) as real / 1000.0;
    var durationToEnd := (rangeEnd - last.t) as real / 1000.0;
    var sampledInterval := (last.t - first.t) as real / 1000.0;
    var averageDurationBetweenSamples := sampledInterval / (|points| - 1) as real;
    if isCounter && resultValue > 0.0 && first.v >= 0.0 {
      var durationToZero := sampledInterval * (first.v / resultValue);
      if durationToZero < durationToStart {
        durationToStart := durationToZero;
      }
    }
    assert durationToStart == ToStart(points, rangeStart, MILLIS, isCounter);
    assert averageDurationBetweenSamples == AverageGap(points, MILLIS);
    assert sampledInterval == Sampled(points, MILLIS);
    assert durationToEnd == Seconds(rangeEnd - last.t, MILLIS);
    hide ToStart, AverageGap, Sampled;

    var extrapolationThreshold := averageDurationBetweenSamples * 1.1;
    var extrapolateToInterval := sampledInterval;
    if durationToStart < extrapolationThreshold {
      extrapolateToInterval := extrapolateToInterval + durationToStart;
    } else {
      extrapolateToInterval := extrapolateToInterval + averageDurationBetweenSamples / 2.0;
    }
    if durationToEnd < extrapolationThreshold {
      extrapolateToInterval := extrapolateToInterval + durationToEnd;
    } else {
      extrapolateToInterval := extrapolateToInterval + averageDurationBetweenSamples / 2.0;
    }
    assert extrapolateToInterval == ExtendedInterval(points, rangeStart, rangeEnd, MILLIS, isCounter);
    hide ExtendedInterval;
    resultValue := resultValue * (extrapolateToInterval / sampledInterval);
    assert resultValue == Extrapolated(points, rangeStart, rangeEnd, MILLIS, isCounter);
    hide Extrapolated;
    if isRate {
      resultValue := resultValue / (range as real / 1000.0);
    }
    return Some(resultValue);
  }
}
