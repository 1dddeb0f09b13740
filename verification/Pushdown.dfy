/** Handing `delta(x[r])` to the database: the query that is generated, the
    aggregate it runs and the points read back, against the engine's own loop. */
module Pushdown {
  import opened Common
  import opened Samples
  import opened Extrapolation
  import opened Gapfill
  import opened MatrixWindow

  import opened RangeFunctions

  datatype Outcome = Failed | Done(points: seq<Point>)

  /** Row times as the database holds them. */
  function Micros(s: seq<Sample>): (r: seq<Sample>)
    ensures |r| == |s|
    ensures forall i :: 0 <= i < |s| ==> r[i] == Sample(1000 * s[i].t, s[i].v)
  {
    seq(|s|, i requires 0 <= i < |s| => Sample(1000 * s[i].t, s[i].v))
  }

  /** SQL generate_series(start, end, step). */
  function GenerateSeries(start: int, end: int, step: int): seq<int>
    requires step > 0
    decreases end - start
  {
    if start > end then [] else [start] + GenerateSeries(start + step, end, step)
  }

  /** What the series iterator yields from the two arrays: null values are skipped. */
  function Present(times: seq<int>, values: seq<Option<real>>): seq<Point>
    requires |times| == |values|
  {
    if times == [] then []
    else
      var rest := Present(times[1..], values[1..]);
      match values[0]
      case None => rest
      case Some(v) => [Point(times[0], v)] + rest
  }

  /** Windows of the filtered rows on the database clock are the windows of the whole series. */
  lemma {:induction false} MicrosWindow(s: seq<Sample>, lo: int, hi: int, a: int, b: int)
    requires lo <= a && b <= hi
    ensures Window(Micros(InRange(s, lo, hi)), 1000 * a, 1000 * b) == Rescaled(Window(s, a, b), 1000)
  {
    if s != [] {
      MicrosWindow(s[1..], lo, hi, a, b);
      var rows, rest := InRange(s, lo, hi), InRange(s[1..], lo, hi);
      if lo <= s[0].t <= hi {
        assert rows == [s[0]] + rest;
        assert Micros(rows)[1..] == Micros(rest);
      } else {
        assert rows == rest;
      }
    }
  }

  /** A window has the same value on both clocks. */
  lemma WindowUnitFree(w: seq<Point>, lo: int, hi: int, isCounter: bool)
    requires lo < hi && (|w| >= 2 ==> Sampleable(w, lo, hi))
    ensures |w| >= 2 ==> Sampleable(Rescaled(w, 1000), 1000 * lo, 1000 * hi)
    ensures WindowEntry(Rescaled(w, 1000), 1000 * lo, 1000 * hi, isCounter, false)
         == (if w == [] then None else RateValue(w, hi, hi - lo, 0, isCounter, false))
  {
    hide Extrapolated, AscendingPoints;
    if |w| >= 2 {
      ExtrapolatedUnitFree(w, lo, hi, isCounter);
    }
  }

  /** Entry k of the aggregate over the filtered rows is the value of the engine's k-th step. */
  lemma EntryIsStep(s: seq<Sample>, rows: seq<Sample>, lo: int, hi: int, step: int, range: int, k: nat, isCounter: bool)
    requires Ascending(s) && step > 0 && range > 0
    requires rows == Micros(InRange(s, lo, hi)) && Ascending(rows)
    requires lo + k * step + range <= hi
    ensures BatchEntry(rows, 1000 * lo, 1000 * step, 1000 * range, k, isCounter, false)
         == StepValue(s, RateFn(range, 0, isCounter, false), lo + k * step + range, range, 0)
  {
    hide Extrapolated, Window, Ascending, InRange, Micros, Sampleable, AscendingPoints, Rescaled, RateValue, WindowEntry;
    var a := lo + k * step;
    assert k * step >= 0;
    assert 1000 * lo + k * (1000 * step) == 1000 * a;
    MicrosWindow(s, lo, hi, a, a + range);
    WindowSampleable(s, a, a + range);
    WindowUnitFree(Window(s, a, a + range), a, a + range, isCounter);
  }

  lemma {:induction false} GenerateSeriesAt(start: int, end: int, step: int, k: nat)
    requires step > 0
    ensures k < |GenerateSeries(start, end, step)| <==> start + k * step <= end
    ensures k < |GenerateSeries(start, end, step)| ==> GenerateSeries(start, end, step)[k] == start + k * step
    decreases k
  {
    if start > end {
      assert k * step >= 0;
    } else if k > 0 {
      GenerateSeriesAt(start + step, end, step, k - 1);
      assert start + step + (k - 1) * step == start + k * step;
    }
  }

  /** `prom_delta` run over the rows of one series, in time order. A row outside
      [lowest, greatest] aborts the query. */
  method PromAggregate(rows: seq<Sample>, lowest: int, greatest: int, stepMs: int, rangeMs: int, isCounter: bool, isRate: bool)
      returns (ok: bool, values: seq<Option<real>>)
    requires Ascending(rows) && stepMs > 0 && rangeMs > 0
    ensures ok <==> forall x :: x in rows ==> lowest <= x.t <= greatest
    ensures ok ==> forall k: nat :: k < |values| <==> lowest + k * (1000 * stepMs) + 1000 * rangeMs <= greatest
    ensures ok ==> forall k: nat :: k < |values| ==>
      values[k] == BatchEntry(rows, lowest, 1000 * stepMs, 1000 * rangeMs, k, isCounter, isRate)
  {
    var state := new GapfillDeltaTransition(lowest, greatest, rangeMs, stepMs, isCounter, isRate);
    ok, values := true, [];
    for i := 0 to |rows|
      invariant state.Valid() && fresh(state)
      invariant state.seen == rows[..i]
      invariant state.lowestTime == lowest && state.greatestTime == greatest
      invariant state.stepSize == 1000 * stepMs && state.range == 1000 * rangeMs
      invariant state.isCounter == isCounter && state.isRate == isRate
      invariant forall x :: x in rows[..i] ==> lowest <= x.t <= greatest
    {
      if rows[i].t < lowest || rows[i].t > greatest {
        assert rows[i] in rows;
        return false, [];
      }
      var fine := state.AddDataPoint(rows[i].t, rows[i].v);
      assert rows[..i] + [rows[i]] == rows[..i + 1];
      assert fine;
    }
    assert rows[..|rows|] == rows;
    state.ToPgArray();
    values := seq(|state.nulls|, k requires 0 <= k < |state.nulls| && |state.nulls| == |state.deltas| reads state => state.Entry(k));
  }

  /** The array of batch entries, as long as the array of times. */
  ghost function Entries(rows: seq<Sample>, lowest: int, step: int, range: int, n: nat, isCounter: bool): seq<Option<real>>
    requires Ascending(rows) && range > 0
  {
    seq(n, k requires k >= 0 => BatchEntry(rows, lowest, step, range, k, isCounter, false))
  }

  /** The step of the generated query, in milliseconds: one second for an instant query. */
  function QueryStep(hintStep: int): int {
    if hintStep > 0 then hintStep else 1000
  }

  /** The interval the engine steps by: an instant query is a single step. */
  function EngineInterval(hintStep: int): int {
    if hintStep > 0 then hintStep else 1
  }

  lemma RowsAscending(s: seq<Sample>, lo: int, hi: int)
    requires Ascending(s)
    ensures Ascending(Micros(InRange(s, lo, hi)))
  {
    InRangeMembers(s, lo, hi);
  }

  /** What a pushed-down call yields for one series with range `range` and
      offset `offset` over [start, end]: the hinted bounds are moved back by the
      offset, the rows fetched end at the query end. */
  ghost function PushdownOutcome(s: seq<Sample>, start: int, end: int, hintStep: int, range: int, offset: int, isCounter: bool): Outcome
    requires Ascending(s) && range > 0
  {
    var step := QueryStep(hintStep);
    var lo, hi := start - offset - range, end - offset;
    var rows := InRange(s, lo, end);
    RowsAscending(s, lo, end);
    if rows == [] then Done([])
    else if exists x :: x in rows && x.t > hi then Failed
    else
      var times := GenerateSeries(lo + range, hi, step);
      Done(Present(times, Entries(Micros(rows), 1000 * lo, 1000 * step, 1000 * range, |times|, isCounter)))
  }

  /** The generated query executed for one series, and its two arrays read back. */
  method PushdownSeries(s: seq<Sample>, start: int, end: int, hintStep: int, range: int, offset: int, isCounter: bool)
      returns (r: Outcome)
    requires Ascending(s) && range > 0 && offset >= 0
    ensures r == PushdownOutcome(s, start, end, hintStep, range, offset, isCounter)
  {
    hide BatchEntry, InRange, Ascending, GenerateSeries, Present;
    var hintsStart, hintsEnd := start - range - offset, end - offset;
    var rows := InRange(s, hintsStart, end);
    if rows == [] {
      return Done([]);
    }
    RowsAscending(s, hintsStart, end);
    InRangeMembers(s, hintsStart, end);
    var step := QueryStep(hintStep);
    var us := Micros(rows);
    var ok, values := PromAggregate(us, 1000 * hintsStart, 1000 * hintsEnd, step, range, isCounter, false);
    assert ok <==> forall i :: 0 <= i < |rows| ==> rows[i].t <= hintsEnd by {
      assert forall i :: 0 <= i < |rows| ==> us[i] in us && rows[i] in rows;
    }
    if !ok {
      return Failed;
    }
    var times := GenerateSeries(hintsStart + range, hintsEnd, step);
    SameLength(times, values, hintsStart + range, hintsEnd, step, 1000 * hintsStart, 1000 * range, 1000 * hintsEnd);
    assert values == Entries(us, 1000 * hintsStart, 1000 * step, 1000 * range, |times|, isCounter);
    r := Done(Present(times, values));
  }

  /** The two arrays of a result row have the same length. */
  lemma SameLength(times: seq<int>, values: seq<Option<real>>, start: int, end: int, step: int, lowest: int, range: int, greatest: int)
    requires step > 0 && times == GenerateSeries(start, end, step)
    requires lowest + range == 1000 * start && greatest == 1000 * end
    requires forall k: nat :: k < |values| <==> lowest + k * (1000 * step) + range <= greatest
    ensures |times| == |values|
  {
    GenerateSeriesAt(start, end, step, |times|);
    GenerateSeriesAt(start, end, step, |values|);
    assert |values| * (1000 * step) == 1000 * (|values| * step);
    assert |times| * (1000 * step) == 1000 * (|times| * step);
  }

  /** Suffix by suffix, the points read back are the engine's remaining steps. */
  lemma {:induction false} PresentIsSteps(s: seq<Sample>, lo: int, end: int, step: int, range: int, isCounter: bool, k: nat, values: seq<Option<real>>)
    requires Ascending(s) && step > 0 && range > 0
    requires Ascending(Micros(InRange(s, lo, end)))
    requires var times := GenerateSeries(lo + range + k * step, end, step);
             |values| == |times|
             && forall i :: 0 <= i < |values| ==>
                  values[i] == BatchEntry(Micros(InRange(s, lo, end)), 1000 * lo, 1000 * step, 1000 * range, k + i, isCounter, false)
    ensures Present(GenerateSeries(lo + range + k * step, end, step), values)
         == StepResults(s, RateFn(range, 0, isCounter, false), lo + range + k * step, end, step, range, 0)
    decreases |values|
  {
    hide BatchEntry, StepValue;
    var ts := lo + range + k * step;
    if ts <= end {
      EntryIsStep(s, Micros(InRange(s, lo, end)), lo, end, step, range, k, isCounter);
      assert values[0] == StepValue(s, RateFn(range, 0, isCounter, false), ts, range, 0);
      assert lo + range + (k + 1) * step == ts + step;
      forall i | 0 <= i < |values[1..]|
        ensures values[1..][i] == BatchEntry(Micros(InRange(s, lo, end)), 1000 * lo, 1000 * step, 1000 * range, k + 1 + i, isCounter, false)
      {
        assert values[1..][i] == values[i + 1];
      }
      PresentIsSteps(s, lo, end, step, range, isCounter, k + 1, values[1..]);
    }
  }

  lemma {:induction false} NothingInRange(s: seq<Sample>, f: RangeFn, ts: int, end: int, interval: int, range: int, lo: int)
    requires Ascending(s) && interval > 0 && lo <= ts - range
    requires InRange(s, lo, end) == []
    ensures StepResults(s, f, ts, end, interval, range, 0) == []
    decreases end - ts
  {
    if ts <= end {
      InRangeMembers(s, lo, end);
      WindowEmpty(s, ts - range, ts);
      NothingInRange(s, f, ts + interval, end, interval, range, lo);
    }
  }

  /** An instant query is one step, whatever the step of the generated query. */
  lemma SingleStep(s: seq<Sample>, f: RangeFn, start: int, end: int, hintStep: int, range: int)
    requires hintStep >= 0 && (hintStep == 0 ==> start == end)
    ensures StepResults(s, f, start, end, QueryStep(hintStep), range, 0) == StepResults(s, f, start, end, EngineInterval(hintStep), range, 0)
  {
    hide StepValue;
    var step := QueryStep(hintStep);
    assert hintStep == 0 ==> StepResults(s, f, start + step, end, step, range, 0) == StepResults(s, f, start + 1, end, 1, range, 0);
  }

  /** Pushing `delta` (or `increase`) down preserves its meaning: without an
      offset the points read back are exactly those of the engine's matrix loop,
      for every series, range query and instant query. */
  lemma PushdownPreservesMeaning(s: seq<Sample>, start: int, end: int, hintStep: int, range: int, isCounter: bool)
    requires Ascending(s) && range > 0
    requires hintStep >= 0 && (hintStep == 0 ==> start == end)
    ensures PushdownOutcome(s, start, end, hintStep, range, 0, isCounter)
         == Done(StepResults(s, RateFn(range, 0, isCounter, false), start, end, EngineInterval(hintStep), range, 0))
  {
    hide BatchEntry, StepValue, Ascending, InRange, Micros, GenerateSeries, Present, RateFn, StepResults;
    var step := QueryStep(hintStep);
    var lo := start - range;
    var f := RateFn(range, 0, isCounter, false);
    RowsAscending(s, lo, end);
    InRangeMembers(s, lo, end);
    if InRange(s, lo, end) == [] {
      NothingInRange(s, f, start, end, EngineInterval(hintStep), range, lo);
    } else {
      var times := GenerateSeries(start, end, step);
      PresentIsSteps(s, lo, end, step, range, isCounter, 0,
                     Entries(Micros(InRange(s, lo, end)), 1000 * lo, 1000 * step, 1000 * range, |times|, isCounter));
      SingleStep(s, f, start, end, hintStep, range);
    }
  }

  /** Two samples at the ends of the first shifted window. */
  function Witness(start: int, range: int, offset: int): seq<Sample> {
    [Sample(start - offset - range, Num(0.0)), Sample(start - offset, Num(1.0))]
  }

  lemma WitnessWindow(start: int, range: int, offset: int)
    requires range > 0
    ensures var s, lo, hi := Witness(start, range, offset), start - offset - range, start - offset;
            && Ascending(s)
            && Sampleable(Window(s, lo, hi), lo, hi)
  {
    var s := Witness(start, range, offset);
    var lo, hi := s[0].t, s[1].t;
    WindowOne(s[1], lo, hi);
    assert s[1..] == [s[1]];
    var w := Window(s, lo, hi);
    assert w == [Point(lo, 0.0)] + Window(s[1..], lo, hi);
    assert w == [Point(lo, 0.0), Point(hi, 1.0)];
    hide Window;
  }

  /** The engine has a result for the witness at the first step. */
  lemma WitnessInEngine(start: int, end: int, interval: int, range: int, offset: int, isCounter: bool)
    requires range > 0 && start <= end && interval > 0
    ensures var r := StepResults(Witness(start, range, offset), RateFn(range, offset, isCounter, false), start, end, interval, range, offset);
            r != [] && r[0].t == start
  {
    WitnessWindow(start, range, offset);
    hide Extrapolated, Sampleable, Window;
  }

  lemma FirstEntry(s: seq<Sample>, lo: int, end: int, step: int, range: int, isCounter: bool)
    requires Ascending(s) && Ascending(Micros(InRange(s, lo, end))) && range > 0 && lo + range <= end
    requires |Window(s, lo, lo + range)| >= 2
    ensures BatchEntry(Micros(InRange(s, lo, end)), 1000 * lo, step, 1000 * range, 0, isCounter, false).Some?
  {
    MicrosWindow(s, lo, end, lo, lo + range);
    hide Extrapolated;
  }

  lemma RowsOfWindow(s: seq<Sample>, lo: int, hi: int, end: int)
    requires Ascending(s) && hi <= end && Window(s, lo, hi) != []
    ensures InRange(s, lo, end) != []
  {
    InRangeMembers(s, lo, end);
    WindowMembers(s, lo, hi);
    var p := Window(s, lo, hi)[0];
    assert p in Window(s, lo, hi);
    assert Sample(p.t, Num(p.v)) in InRange(s, lo, end);
  }

  /** Where the database has a value for the first window, it reports it at the unshifted time. */
  lemma DatabaseFirst(s: seq<Sample>, start: int, end: int, hintStep: int, range: int, offset: int, isCounter: bool)
    requires Ascending(s) && range > 0 && start <= end && offset >= 0
    requires |Window(s, start - offset - range, start - offset)| >= 2
    ensures var r := PushdownOutcome(s, start, end, hintStep, range, offset, isCounter);
            r.Done? ==> r.points != [] && r.points[0].t == start - offset
  {
    hide Ascending, InRange, Window, BatchEntry, GenerateSeries, Present;
    var lo, hi, step := start - offset - range, end - offset, QueryStep(hintStep);
    RowsOfWindow(s, lo, start - offset, end);
    RowsAscending(s, lo, end);
    GenerateSeriesAt(start - offset, hi, step, 0);
    var times := GenerateSeries(start - offset, hi, step);
    FirstEntry(s, lo, end, 1000 * step, range, isCounter);
    PresentTimes(times, Entries(Micros(InRange(s, lo, end)), 1000 * lo, 1000 * step, 1000 * range, |times|, isCounter));
  }

  /** With an offset the points read back keep their unshifted times, so some series comes out wrong. */
  lemma OffsetBreaksPushdown(start: int, end: int, hintStep: int, range: int, offset: int, isCounter: bool)
    requires range > 0 && offset > 0 && start <= end
    requires hintStep >= 0
    ensures Ascending(Witness(start, range, offset))
    ensures PushdownOutcome(Witness(start, range, offset), start, end, hintStep, range, offset, isCounter)
         != Done(StepResults(Witness(start, range, offset), RateFn(range, offset, isCounter, false), start, end, EngineInterval(hintStep), range, offset))
  {
    hide PushdownOutcome, StepResults, Witness, Ascending, Window;
    WitnessWindow(start, range, offset);
    WitnessInEngine(start, end, EngineInterval(hintStep), range, offset, isCounter);
    DatabaseFirst(Witness(start, range, offset), start, end, hintStep, range, offset, isCounter);
  }

  lemma PresentTimes(times: seq<int>, values: seq<Option<real>>)
    requires |times| == |values| > 0 && values[0].Some?
    ensures Present(times, values) != [] && Present(times, values)[0].t == times[0]
  {
  }

  /** Exactly when pushdown is right for every series: when the selector has no offset. */
  lemma PushdownExactlyWithoutOffset(start: int, end: int, hintStep: int, range: int, offset: int, isCounter: bool)
    requires range > 0 && offset >= 0 && start <= end
    requires hintStep >= 0 && (hintStep == 0 ==> start == end)
    ensures offset == 0 <==>
      forall s :: Ascending(s) ==>
        PushdownOutcome(s, start, end, hintStep, range, offset, isCounter)
        == Done(StepResults(s, RateFn(range, offset, isCounter, false), start, end, EngineInterval(hintStep), range, offset))
  {
    if offset == 0 {
      forall s | Ascending(s)
        ensures PushdownOutcome(s, start, end, hintStep, range, offset, isCounter)
             == Done(StepResults(s, RateFn(range, offset, isCounter, false), start, end, EngineInterval(hintStep), range, offset))
      {
        PushdownPreservesMeaning(s, start, end, hintStep, range, isCounter);
      }
    } else {
      OffsetBreaksPushdown(start, end, hintStep, range, offset, isCounter);
    }
  }

  /** The aggregate's `rate` divides by a range in microseconds where the engine
      divides by seconds: they differ by a factor of a million, and so agree only on zero. */
  lemma RateDiffersByUnit(pts: seq<Point>, ts: int, range: int, isCounter: bool)
    requires range > 0 && Sampleable(pts, ts - range, ts)
    ensures Sampleable(Rescaled(pts, 1000), 1000 * (ts - range), 1000 * ts)
    ensures var inDb := WindowEntry(Rescaled(pts, 1000), 1000 * (ts - range), 1000 * ts, isCounter, true).value;
            var inEngine := RateValue(pts, ts, range, 0, isCounter, true).value;
            1_000_000.0 * inDb == inEngine && (inDb == inEngine <==> Extrapolated(pts, ts - range, ts, MILLIS, isCounter) == 0.0)
  {
    ExtrapolatedUnitFree(pts, ts - range, ts, isCounter);
    var v := Extrapolated(pts, ts - range, ts, MILLIS, isCounter);
    hide Extrapolated;
    ScaledQuotient(v, range);
  }

  lemma ScaledQuotient(v: real, range: int)
    requires range > 0
    ensures 1_000_000.0 * (v / (1000 * range) as real) == v / (range as real / 1000.0)
    ensures v / (1000 * range) as real == 0.0 <==> v == 0.0
  {
    var d := range as real;
    assert (1000 * range) as real == 1000.0 * d;
    assert v / (1000.0 * d) * (1000.0 * d) == v;
    assert v / (d / 1000.0) * (d / 1000.0) == v;
  }

  // ----- what an offset does -----

  lemma {:induction false} NothingBetween(s: seq<Sample>, lo: int, hi: int, end: int)
    requires hi <= end && forall x :: x in s ==> !(hi < x.t <= end)
    ensures InRange(s, lo, end) == InRange(s, lo, hi)
  {
    if s != [] {
      assert s[0] in s;
      NothingBetween(s[1..], lo, hi, end);
    }
  }

  /** A pushed-down query with an offset fails exactly if the series has a sample
      after the shifted end and up to the end, stale or not. Otherwise it yields
      what the query without an offset yields at the shifted times. */
  lemma OffsetOutcome(s: seq<Sample>, start: int, end: int, hintStep: int, range: int, offset: int, isCounter: bool)
    requires Ascending(s) && range > 0 && offset >= 0 && start <= end
    ensures var r := PushdownOutcome(s, start, end, hintStep, range, offset, isCounter);
      && (r == Failed <==> exists x :: x in s && end - offset < x.t <= end)
      && (r != Failed ==> r == PushdownOutcome(s, start - offset, end - offset, hintStep, range, 0, isCounter))
  {
    hide BatchEntry, GenerateSeries, Present, Micros, InRange;
    var lo, hi := start - offset - range, end - offset;
    InRangeMembers(s, lo, end);
    InRangeMembers(s, lo, hi);
    if x :| x in s && hi < x.t <= end {
      assert x in InRange(s, lo, end);
    } else {
      NothingBetween(s, lo, hi, end);
    }
  }
}
