/** The value of `delta`, `increase` and `rate` said of the points alone, in
    clock ticks, and what follows for points on a line. */
module ExtrapolationLaws {
  import opened Common
  import opened Samples
  import opened Extrapolation
  import opened RangeFunctions

  // ----- the increase of a counter -----

  /** What a counter gained from point to point: after a reset it counts from zero. */
  function Gains(pts: seq<Point>): real {
    if |pts| < 2 then 0.0
    else (if pts[1].v < pts[0].v then pts[1].v else pts[1].v - pts[0].v) + Gains(pts[1..])
  }

  lemma {:induction false} CorrectionIsGains(pts: seq<Point>)
    requires pts != []
    ensures pts[|pts| - 1].v - pts[0].v + CounterCorrection(pts[1..], pts[0].v) == Gains(pts)
  {
    if |pts| >= 2 {
      CorrectionIsGains(pts[1..]);
    }
  }

  /** The increase is what the counter gained, or the difference of the ends for a gauge. */
  lemma RawIncreaseMeans(pts: seq<Point>)
    requires pts != []
    ensures RawIncrease(pts, true) == Gains(pts)
    ensures RawIncrease(pts, false) == pts[|pts| - 1].v - pts[0].v
  {
    CorrectionIsGains(pts);
  }

  /** A counter that is never reset gains the difference of its ends. */
  lemma {:induction false} GainsWithoutReset(pts: seq<Point>)
    requires pts != [] && NeverFalls(pts)
    ensures Gains(pts) == pts[|pts| - 1].v - pts[0].v
  {
    if |pts| >= 2 {
      assert pts[0].v <= pts[1].v;
      assert NeverFalls(pts[1..]);
      GainsWithoutReset(pts[1..]);
    }
  }

  ghost predicate NeverFalls(pts: seq<Point>) {
    forall i, j :: 0 <= i < j < |pts| ==> pts[i].v <= pts[j].v
  }

  // ----- what each end adds -----

  /** Seconds in ticks. */
  function Ticks(x: real, unit: real): real {
    x * unit
  }

  lemma SecondsInTicks(ticks: real, unit: real)
    requires unit > 0.0
    ensures Ticks(ticks / unit, unit) == ticks
  {
  }

  lemma SumInTicks(a: real, b: real, c: real, unit: real)
    ensures Ticks(a + b + c, unit) == Ticks(a, unit) + Ticks(b, unit) + Ticks(c, unit)
  {
  }

  lemma OrderInTicks(a: real, b: real, unit: real)
    requires unit > 0.0
    ensures a < b <==> Ticks(a, unit) < Ticks(b, unit)
  {
  }

  lemma ThresholdInTicks(gap: real, unit: real)
    ensures Ticks(gap * 1.1, unit) == Ticks(gap, unit) * 1.1
    ensures Ticks(gap / 2.0, unit) == Ticks(gap, unit) / 2.0
  {
  }

  lemma PartInTicks(span: real, part: real, unit: real)
    requires unit > 0.0
    ensures Ticks(span / unit * part, unit) == span * part
  {
    var x := span / unit;
    assert x * unit == span;
    assert x * part * unit == x * unit * part;
  }

  lemma ShareInTicks(span: real, n: real, unit: real)
    requires unit > 0.0 && n > 0.0
    ensures Ticks(span / unit / n, unit) == span / n
  {
    var x := span / unit / n;
    assert x * n * unit == span;
    assert x * unit * n == span;
  }

  lemma StretchInTicks(d: real, gap: real, unit: real)
    requires unit > 0.0
    ensures Ticks(Stretch(d, gap), unit) == if Ticks(d, unit) < Ticks(gap, unit) * 1.1 then Ticks(d, unit) else Ticks(gap, unit) / 2.0
  {
    OrderInTicks(d, gap * 1.1, unit);
    ThresholdInTicks(gap, unit);
    hide Ticks;
  }

  function Span(pts: seq<Point>): real
    requires pts != []
  {
    (pts[|pts| - 1].t - pts[0].t) as real
  }

  /** How far back a counter was zero, in ticks before its first point. */
  function SinceZero(pts: seq<Point>, raw: real): real
    requires pts != [] && raw > 0.0
  {
    Span(pts) * (pts[0].v / raw)
  }

  /** At the counter's average speed it takes this long to gain the first value. */
  lemma SinceZeroMeans(pts: seq<Point>, raw: real)
    requires pts != [] && raw > 0.0
    ensures SinceZero(pts, raw) * raw == (pts[|pts| - 1].t - pts[0].t) as real * pts[0].v
  {
    var part := pts[0].v / raw;
    assert part * raw == pts[0].v;
    assert Span(pts) * part * raw == Span(pts) * (part * raw);
  }

  /** The distance from the first point back to where extrapolation may go: the
      start of the window, or for a counter the time at which it was zero. */
  lemma ToStartInTicks(pts: seq<Point>, lo: int, unit: real, isCounter: bool)
    requires pts != [] && unit > 0.0
    ensures var raw, back := RawIncrease(pts, isCounter), (pts[0].t - lo) as real;
      Ticks(ToStart(pts, lo, unit, isCounter), unit) ==
        if isCounter && raw > 0.0 && pts[0].v >= 0.0 && SinceZero(pts, raw) < back then SinceZero(pts, raw) else back
  {
    hide RawIncrease, Ticks, SinceZero;
    var raw, back := RawIncrease(pts, isCounter), (pts[0].t - lo) as real;
    SecondsInTicks(back, unit);
    if isCounter && raw > 0.0 && pts[0].v >= 0.0 {
      var toZero := Sampled(pts, unit) * (pts[0].v / raw);
      ZeroInTicks(pts, raw, unit);
      OrderInTicks(toZero, back / unit, unit);
      assert ToStart(pts, lo, unit, isCounter) == if toZero < back / unit then toZero else back / unit;
    }
  }

  lemma ZeroInTicks(pts: seq<Point>, raw: real, unit: real)
    requires pts != [] && raw > 0.0 && unit > 0.0
    ensures Ticks(Sampled(pts, unit) * (pts[0].v / raw), unit) == SinceZero(pts, raw)
  {
    PartInTicks(Span(pts), pts[0].v / raw, unit);
  }

  lemma GapInTicks(pts: seq<Point>, unit: real)
    requires |pts| >= 2 && unit > 0.0
    ensures Ticks(AverageGap(pts, unit), unit) == Span(pts) / (|pts| - 1) as real
  {
    hide Ticks;
    ShareInTicks(Span(pts), (|pts| - 1) as real, unit);
  }

  lemma ExtendedInTicks(pts: seq<Point>, lo: int, hi: int, unit: real, isCounter: bool, back: real, gap: real)
    requires |pts| >= 2 && unit > 0.0
    requires back == Ticks(ToStart(pts, lo, unit, isCounter), unit) && gap == Ticks(AverageGap(pts, unit), unit)
    ensures var ahead := (hi - pts[|pts| - 1].t) as real;
      Ticks(ExtendedInterval(pts, lo, hi, unit, isCounter), unit)
        == Span(pts) + (if back < gap * 1.1 then back else gap / 2.0) + (if ahead < gap * 1.1 then ahead else gap / 2.0)
  {
    hide Ticks, ToStart, AverageGap, Stretch;
    SecondsInTicks(Span(pts), unit);
    SecondsInTicks((hi - pts[|pts| - 1].t) as real, unit);
    var toStart, toEnd, avg := ToStart(pts, lo, unit, isCounter), Seconds(hi - pts[|pts| - 1].t, unit), AverageGap(pts, unit);
    StretchInTicks(toStart, avg, unit);
    StretchInTicks(toEnd, avg, unit);
    SumInTicks(Sampled(pts, unit), Stretch(toStart, avg), Stretch(toEnd, avg), unit);
  }

  lemma Stretched(raw: real, sampled: real, extended: real, unit: real, span: real, whole: real)
    requires unit > 0.0 && sampled > 0.0 && Ticks(sampled, unit) == span && Ticks(extended, unit) == whole
    ensures raw * (extended / sampled) * span == raw * whole
  {
    var ratio := extended / sampled;
    assert ratio * sampled == extended;
    assert ratio * span == whole;
  }

  lemma ExtrapolatedInTicks(pts: seq<Point>, lo: int, hi: int, unit: real, isCounter: bool, whole: real)
    requires Sampleable(pts, lo, hi) && unit > 0.0 && whole == Ticks(ExtendedInterval(pts, lo, hi, unit, isCounter), unit)
    ensures Extrapolated(pts, lo, hi, unit, isCounter) * Span(pts) == RawIncrease(pts, isCounter) * whole
  {
    hide Ticks, ExtendedInterval, RawIncrease;
    SampledPositive(pts, lo, hi, unit);
    SecondsInTicks(Span(pts), unit);
    Stretched(RawIncrease(pts, isCounter), Sampled(pts, unit), ExtendedInterval(pts, lo, hi, unit, isCounter), unit, Span(pts), whole);
  }

  /** The extrapolated difference of a gauge is its difference times the ratio of
      the stretched to the sampled span. An end nearer than 1.1 average gaps adds
      its distance, any other adds exactly half an average gap. */
  lemma DeltaMeans(pts: seq<Point>, lo: int, hi: int, unit: real)
    requires Sampleable(pts, lo, hi) && unit > 0.0
    ensures
      var first, last := pts[0], pts[|pts| - 1];
      var span := (last.t - first.t) as real;
      var gap := span / (|pts| - 1) as real;
      var back, ahead := (first.t - lo) as real, (hi - last.t) as real;
      Extrapolated(pts, lo, hi, unit, false) * span
        == (last.v - first.v) * (span + (if back < gap * 1.1 then back else gap / 2.0) + (if ahead < gap * 1.1 then ahead else gap / 2.0))
  {
    hide Extrapolated, Ticks, ToStart, AverageGap, ExtendedInterval;
    ToStartInTicks(pts, lo, unit, false);
    GapInTicks(pts, unit);
    var back, gap := Ticks(ToStart(pts, lo, unit, false), unit), Ticks(AverageGap(pts, unit), unit);
    ExtendedInTicks(pts, lo, hi, unit, false, back, gap);
    ExtrapolatedInTicks(pts, lo, hi, unit, false, Ticks(ExtendedInterval(pts, lo, hi, unit, false), unit));
  }

  /** For a counter the same holds of what it gained, except that the way back
      ends where the counter was zero. */
  lemma IncreaseMeans(pts: seq<Point>, lo: int, hi: int, unit: real)
    requires Sampleable(pts, lo, hi) && unit > 0.0
    ensures
      var raw, gap := Gains(pts), Span(pts) / (|pts| - 1) as real;
      var start, ahead := (pts[0].t - lo) as real, (hi - pts[|pts| - 1].t) as real;
      var back := if raw > 0.0 && pts[0].v >= 0.0 && SinceZero(pts, raw) < start then SinceZero(pts, raw) else start;
      Extrapolated(pts, lo, hi, unit, true) * Span(pts)
        == raw * (Span(pts) + (if back < gap * 1.1 then back else gap / 2.0) + (if ahead < gap * 1.1 then ahead else gap / 2.0))
  {
    hide Extrapolated, Ticks, ToStart, AverageGap, ExtendedInterval, RawIncrease, Gains, Span, SinceZero;
    RawIncreaseMeans(pts);
    ToStartInTicks(pts, lo, unit, true);
    GapInTicks(pts, unit);
    var back, gap := Ticks(ToStart(pts, lo, unit, true), unit), Ticks(AverageGap(pts, unit), unit);
    ExtendedInTicks(pts, lo, hi, unit, true, back, gap);
    ExtrapolatedInTicks(pts, lo, hi, unit, true, Ticks(ExtendedInterval(pts, lo, hi, unit, true), unit));
  }

  // ----- points on a line -----

  ghost predicate OnLine(pts: seq<Point>, slope: real, base: real) {
    forall i :: 0 <= i < |pts| ==> pts[i].v == base + slope * pts[i].t as real
  }

  /** Both ends are nearer than 1.1 average gaps. */
  predicate EndsNear(pts: seq<Point>, lo: int, hi: int)
    requires |pts| >= 2
  {
    var gap := (pts[|pts| - 1].t - pts[0].t) as real / (|pts| - 1) as real;
    (pts[0].t - lo) as real < gap * 1.1 && (hi - pts[|pts| - 1].t) as real < gap * 1.1
  }

  /** The `delta` of points on a line with both ends near is the slope times the window length. */
  lemma DeltaOfLine(pts: seq<Point>, lo: int, hi: int, unit: real, slope: real, base: real)
    requires Sampleable(pts, lo, hi) && unit > 0.0 && OnLine(pts, slope, base) && EndsNear(pts, lo, hi)
    ensures Extrapolated(pts, lo, hi, unit, false) == slope * (hi - lo) as real
  {
    hide Extrapolated;
    DeltaMeans(pts, lo, hi, unit);
    var a, b := pts[0].t as real, pts[|pts| - 1].t as real;
    assert b > a;
    assert pts[|pts| - 1].v - pts[0].v == slope * b - slope * a;
    LineStretched(Extrapolated(pts, lo, hi, unit, false), slope, a, b, lo as real, hi as real);
  }

  lemma LineStretched(x: real, slope: real, a: real, b: real, lo: real, hi: real)
    requires b > a && x * (b - a) == (slope * b - slope * a) * (b - a + (a - lo) + (hi - b))
    ensures x == slope * (hi - lo)
  {
    var whole := hi - lo;
    assert b - a + (a - lo) + (hi - b) == whole;
    assert slope * b - slope * a == slope * (b - a);
    assert slope * (b - a) * whole == slope * whole * (b - a);
    SameFactor(x, slope * whole, b - a);
  }

  lemma SameFactor(x: real, y: real, f: real)
    requires f > 0.0 && x * f == y * f
    ensures x == y
  {
    assert (x - y) * f == 0.0;
  }

  /** So is the increase of a rising counter that was not yet zero at the window's start. */
  lemma IncreaseOfLine(pts: seq<Point>, lo: int, hi: int, unit: real, slope: real, base: real)
    requires Sampleable(pts, lo, hi) && unit > 0.0 && OnLine(pts, slope, base) && EndsNear(pts, lo, hi)
    requires slope > 0.0 && base + slope * lo as real >= 0.0
    ensures Extrapolated(pts, lo, hi, unit, true) == slope * (hi - lo) as real
  {
    hide Extrapolated, OnLine, Gains;
    LineGains(pts, lo, hi, slope, base);
    IncreaseMeans(pts, lo, hi, unit);
    LineStretched(Extrapolated(pts, lo, hi, unit, true), slope, pts[0].t as real, pts[|pts| - 1].t as real, lo as real, hi as real);
  }

  lemma LineGains(pts: seq<Point>, lo: int, hi: int, slope: real, base: real)
    requires Sampleable(pts, lo, hi) && OnLine(pts, slope, base) && slope > 0.0 && base + slope * lo as real >= 0.0
    ensures var a, b, gains := pts[0].t as real, pts[|pts| - 1].t as real, Gains(pts);
      && a < b && gains == slope * b - slope * a && gains > 0.0
      && SinceZero(pts, gains) >= a - lo as real
  {
    hide Gains, NeverFalls;
    LineRises(pts, slope, base);
    GainsWithoutReset(pts);
    var a, b := pts[0].t as real, pts[|pts| - 1].t as real;
    Rises(slope, a, b);
    ZeroIsBefore(slope, base, a, b, lo as real, pts[0].v, Gains(pts));
  }

  lemma LineRises(pts: seq<Point>, slope: real, base: real)
    requires AscendingPoints(pts) && OnLine(pts, slope, base) && slope > 0.0
    ensures NeverFalls(pts)
  {
    forall i, j | 0 <= i < j < |pts| ensures pts[i].v <= pts[j].v {
      RisesFrom(pts[i], pts[j], slope, base);
    }
  }

  lemma RisesFrom(p: Point, q: Point, slope: real, base: real)
    requires p.t < q.t && slope > 0.0 && p.v == base + slope * p.t as real && q.v == base + slope * q.t as real
    ensures p.v <= q.v
  {
    Rises(slope, p.t as real, q.t as real);
  }

  lemma Rises(slope: real, a: real, b: real)
    requires slope > 0.0 && a < b
    ensures slope * a < slope * b
  {
  }

  lemma ZeroIsBefore(slope: real, base: real, a: real, b: real, lo: real, v: real, raw: real)
    requires slope > 0.0 && a < b && base + slope * lo >= 0.0 && v == base + slope * a && raw == slope * b - slope * a && raw > 0.0
    ensures (b - a) * (v / raw) >= a - lo
  {
    assert raw == slope * (b - a);
    var x := (b - a) * (v / raw);
    assert v / raw * raw == v;
    assert slope * x == v;
    assert slope * (a - lo) <= v;
    assert slope * (x - (a - lo)) >= 0.0;
  }

  /** A rate is the increase by the seconds of the window. */
  lemma RateMeans(pts: seq<Point>, ts: int, range: int, offset: int, isCounter: bool)
    requires range > 0
    ensures var rate, total := RateValue(pts, ts, range, offset, isCounter, true), RateValue(pts, ts, range, offset, isCounter, false);
      && (rate.Some? <==> total.Some?)
      && (rate.Some? ==> rate.value * (range as real / 1000.0) == total.value)
  {
    hide Extrapolated;
  }

  /** A value exists exactly for two or more points in time order inside the
      window, and is that of the window from the shifted time back. */
  lemma RateValueMeans(pts: seq<Point>, ts: int, range: int, offset: int, isCounter: bool)
    requires range > 0
    ensures RateValue(pts, ts, range, offset, isCounter, false).Some? <==>
      && |pts| >= 2 && (forall i, j :: 0 <= i < j < |pts| ==> pts[i].t < pts[j].t)
      && ts - offset - range <= pts[0].t && pts[|pts| - 1].t <= ts - offset
    ensures RateValue(pts, ts, range, offset, isCounter, false).Some? ==>
      RateValue(pts, ts, range, offset, isCounter, false).value == Extrapolated(pts, ts - offset - range, ts - offset, 1000.0, isCounter)
  {
    hide Extrapolated;
  }
}
