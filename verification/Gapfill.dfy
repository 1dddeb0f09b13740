/** The streaming aggregate behind `prom_delta`: `GapfillDeltaTransition` of the
    database extension. Times, step and range are microseconds. */
module Gapfill {
  import opened Common
  import opened Samples

  import opened Extrapolation

  const MICROS: real := 1_000_000.0

  /** The array entry for one window [lo, hi]: null below two points. A rate is
      divided by the range as the aggregate holds it, in microseconds. */
  function WindowEntry(pts: seq<Point>, lo: int, hi: int, isCounter: bool, isRate: bool): Option<real>
    requires |pts| >= 2 ==> Sampleable(pts, lo, hi)
    requires lo < hi
  {
    if |pts| < 2 then None
    else
      var v := Extrapolated(pts, lo, hi, MICROS, isCounter);
      Some(if isRate then v / (hi - lo) as real else v)
  }

  lemma WindowSampleable(s: seq<Sample>, lo: int, hi: int)
    requires Ascending(s)
    ensures AscendingPoints(Window(s, lo, hi))
    ensures |Window(s, lo, hi)| >= 2 ==> Sampleable(Window(s, lo, hi), lo, hi)
  {
    WindowAscending(s, lo, hi);
    WindowMembers(s, lo, hi);
    var w := Window(s, lo, hi);
    if |w| >= 2 {
      assert w[0] in w && w[|w| - 1] in w;
    }
  }

  /** The entry a batch computation gives for the k-th window over all the input. */
  ghost function BatchEntry(s: seq<Sample>, lowest: int, step: int, range: int, k: nat, isCounter: bool, isRate: bool): Option<real>
    requires Ascending(s) && range > 0
  {
    var lo := lowest + k * step;
    WindowSampleable(s, lo, lo + range);
    WindowEntry(Window(s, lo, lo + range), lo, lo + range, isCounter, isRate)
  }

  lemma LatestIsLast(s: seq<Sample>, x: Sample)
    requires Ascending(s + [x])
    ensures Ascending(s) && forall y :: y in s ==> y.t < x.t
  {
    assert (s + [x])[|s|] == x;
    assert forall i :: 0 <= i < |s| ==> (s + [x])[i] == s[i];
  }

  lemma StepsGrow(j: int, k: int, step: int)
    requires 0 <= j <= k && step > 0
    ensures j * step <= k * step
    ensures (k + 1) * step == k * step + step
  {
  }

  /** A sample after a window's end does not change that window's entry. */
  lemma EntryStable(s: seq<Sample>, x: Sample, lowest: int, step: int, range: int, k: nat, isCounter: bool, isRate: bool)
    requires Ascending(s + [x]) && range > 0
    requires x.t > lowest + k * step + range
    ensures Ascending(s)
    ensures BatchEntry(s + [x], lowest, step, range, k, isCounter, isRate) == BatchEntry(s, lowest, step, range, k, isCounter, isRate)
  {
    hide Extrapolated;
    assert forall i :: 0 <= i < |s| ==> (s + [x])[i] == s[i];
    var lo := lowest + k * step;
    WindowConcat(s, [x], lo, lo + range);
    assert Window(s + [x], lo, lo + range) == Window(s, lo, lo + range);
  }

  /** What a counter had reached before each of its resets, summed. */
  method SumOfResets(window: seq<Point>) returns (counterCorrection: real)
    ensures counterCorrection == CounterCorrection(window, 0.0)
  {
    counterCorrection := 0.0;
    var lastValue := 0.0;
    for i := 0 to |window|
      invariant counterCorrection + CounterCorrection(window[i..], lastValue) == CounterCorrection(window, 0.0)
    {
      if window[i].v < lastValue {
        counterCorrection := counterCorrection + lastValue;
      }
      lastValue := window[i].v;
    }
  }

  /** The arithmetic of the aggregate on one window of at least two points. */
  method WindowDelta(window: seq<Point>, windowMin: int, windowMax: int, isCounter: bool) returns (resultVal: real)
    requires Sampleable(window, windowMin, windowMax)
    ensures resultVal == Extrapolated(window, windowMin, windowMax, MICROS, isCounter)
  {
    hide CounterCorrection, AscendingPoints;
    var counterCorrection := 0.0;
    if isCounter {
      counterCorrection := SumOfResets(window);
    }
    var latest := window[|window| - 1];
    var earliest := window[0];
    resultVal := latest.v - earliest.v + counterCorrection;
    SampledPositive(window, windowMin, windowMax, MICROS);
    assert resultVal == RawIncrease(window, isCounter);
    hide RawIncrease;

    var durationToStart := (earliest.t - windowMin) as real / MICROS;
    var durationToEnd := (windowMax - latest.t) as real / MICROS;
    var sampledInterval := (latest.t - earliest.t) as real / MICROS;
    var avgDurationBetweenSamples := sampledInterval / (|window| - 1) as real;

    if isCounter && resultVal > 0.0 && earliest.v >= 0.0 {
      var durationToZero := sampledInterval * (earliest.v / resultVal);
      if durationToZero < durationToStart {
        durationToStart := durationToZero;
      }
    }

    assert durationToStart == ToStart(window, windowMin, MICROS, isCounter);
    assert avgDurationBetweenSamples == AverageGap(window, MICROS);
    assert sampledInterval == Sampled(window, MICROS);
    assert durationToEnd == Seconds(windowMax - latest.t, MICROS);
    hide ToStart, AverageGap, Sampled, Seconds;

    var extrapolationThreshold := avgDurationBetweenSamples * 1.1;
    var extrapolateToInterval := sampledInterval;
    if durationToStart < extrapolationThreshold {
      extrapolateToInterval := extrapolateToInterval + durationToStart;
    } else {
      extrapolateToInterval := extrapolateToInterval + avgDurationBetweenSamples / 2.0;
    }
    if durationToEnd < extrapolationThreshold {
      extrapolateToInterval := extrapolateToInterval + durationToEnd;
    } else {
      extrapolateToInterval := extrapolateToInterval + avgDurationBetweenSamples / 2.0;
    }
    assert extrapolateToInterval == ExtendedInterval(window, windowMin, windowMax, MICROS, isCounter);
    hide ExtendedInterval;
    resultVal := resultVal * (extrapolateToInterval / sampledInterval);
  }

  class GapfillDeltaTransition {
    var window: seq<Point>
    // 0 by convention where the entry is null
    var deltas: seq<real>
    var nulls: seq<bool>
    var windowMax: int
    var windowMin: int
    const stepSize: int
    const range: int
    const greatestTime: int
    const isCounter: bool
    const isRate: bool
    // where the first window starts, and everything received so far
    ghost const lowestTime: int
    ghost var seen: seq<Sample>

    function Entry(k: int): Option<real>
      requires 0 <= k < |nulls| == |deltas|
      reads this
    {
      if nulls[k] then None else Some(deltas[k])
    }

    /** Every closed window has its batch entry, and the open window holds its points of `seen`. */
    ghost predicate Consistent()
      reads this
    {
      && stepSize > 0 && range > 0
      && |nulls| == |deltas|
      && windowMin == lowestTime + |nulls| * stepSize
      && windowMax == windowMin + range
      && (|nulls| > 0 ==> windowMax - stepSize <= greatestTime)
      && Ascending(seen)
      && (forall x :: x in seen && x.v.Num? ==> x.t <= windowMax)
      && window == Window(seen, windowMin, windowMax)
      && (forall k :: 0 <= k < |nulls| ==> Entry(k) == BatchEntry(seen, lowestTime, stepSize, range, k, isCounter, isRate))
    }

    /** While input is arriving, only windows that end before the latest input are closed. */
    ghost predicate Valid()
      reads this
    {
      && Consistent()
      && (|nulls| > 0 ==> seen != [] && seen[|seen| - 1].t > windowMax - stepSize)
    }

    constructor (lowestTime: int, greatestTime: int, rangeMs: int, stepMs: int, isCounter: bool, isRate: bool)
      requires rangeMs > 0 && stepMs > 0
      ensures Valid() && seen == [] && this.lowestTime == lowestTime && this.greatestTime == greatestTime
      ensures stepSize == 1000 * stepMs && range == 1000 * rangeMs
      ensures this.isCounter == isCounter && this.isRate == isRate
    {
      window, deltas, nulls := [], [], [];
      windowMax := lowestTime + rangeMs * 1000;
      windowMin := lowestTime;
      stepSize := stepMs * 1000;
      range := rangeMs * 1000;
      this.greatestTime := greatestTime;
      this.isCounter := isCounter;
      this.isRate := isRate;
      this.lowestTime := lowestTime;
      seen := [];
    }

    method AddDeltaForCurrentWindow()
      requires windowMin < windowMax && range == windowMax - windowMin
      requires |window| >= 2 ==> Sampleable(window, windowMin, windowMax)
      requires |nulls| == |deltas|
      modifies this`deltas, this`nulls
      ensures |nulls| == |deltas| == old(|nulls|) + 1
      ensures forall k :: 0 <= k < old(|nulls|) ==> Entry(k) == old(Entry(k))
      ensures Entry(old(|nulls|)) == WindowEntry(window, windowMin, windowMax, isCounter, isRate)
    {
      if |window| < 2 {
        deltas := deltas + [0.0];
        nulls := nulls + [true];
        return;
      }
      var resultVal := WindowDelta(window, windowMin, windowMax, isCounter);
      if isRate {
        resultVal := resultVal / range as real;
      }
      hide Extrapolated;
      deltas := deltas + [resultVal];
      nulls := nulls + [false];
    }

    method FlushCurrentWindow()
      requires Consistent() && windowMax <= greatestTime
      modifies this
      ensures Consistent()
      ensures seen == old(seen) && windowMax == old(windowMax) + stepSize
      ensures |nulls| == old(|nulls|) + 1
    {
      hide Extrapolated, WindowEntry;
      WindowSampleable(seen, windowMin, windowMax);
      AddDeltaForCurrentWindow();
      StepsGrow(0, |nulls| - 1, stepSize);
      ghost var lo, hi := windowMin, windowMax;
      windowMin := windowMin + stepSize;
      windowMax := windowMax + stepSize;
      ghost var all, i := window, 0;
      while |window| > 0 && window[0].t < windowMin
        invariant 0 <= i <= |all| && window == all[i..]
        invariant forall j :: 0 <= j < i ==> all[j].t < windowMin
        modifies this`window
      {
        assert all[i] == window[0];
        window := window[1..];
        i := i + 1;
      }
      WindowPopFront(seen, lo, hi, windowMin, i);
      WindowSameBounds(seen, windowMin, hi, windowMin, windowMax);
    }

    /** Flushes until the open window reaches `time`. */
    method AdvanceTo(time: int)
      requires Consistent() && time <= greatestTime
      modifies this
      ensures Consistent() && seen == old(seen)
      ensures time <= windowMax
      ensures (windowMax == old(windowMax) && |nulls| == old(|nulls|)) || time > windowMax - stepSize
    {
      while time > windowMax
        invariant Consistent() && seen == old(seen)
        invariant (windowMax == old(windowMax) && |nulls| == old(|nulls|)) || time > windowMax - stepSize
        decreases time - windowMax
      {
        FlushCurrentWindow();
      }
    }

    /** Takes the next sample. Samples are expected in ascending time order; an
        input older than the newest point still in the window is refused. */
    method AddDataPoint(time: int, val: Value) returns (ok: bool)
      requires Valid() && time <= greatestTime
      modifies this
      ensures seen == old(seen) + [Sample(time, val)]
      ensures Ascending(seen) ==> ok && Valid()
    {
      hide BatchEntry, Ascending, Window;
      ghost var before := seen;
      ghost var x := Sample(time, val);
      if val.StaleNaN? {
        if Ascending(seen + [x]) {
          LatestIsLast(before, x);
          Received(x);
          WindowOne(x, windowMin, windowMax);
        }
        seen := seen + [x];
        return true;
      }
      AdvanceTo(time);
      if Ascending(seen + [x]) {
        LatestIsLast(before, x);
        Received(x);
        WindowOne(x, windowMin, windowMax);
      }
      seen := seen + [x];
      if |window| > 0 && window[|window| - 1].t > time {
        return false;
      }
      if time >= windowMin {
        window := window + [Point(time, val.r)];
      }
      return true;
    }

    /** Input at the end of the stream is later than every point held, leaves
        every closed entry as it was and joins the open window if it is inside. */
    lemma Received(x: Sample)
      requires Consistent() && Ascending(seen + [x])
      requires |nulls| > 0 ==> x.t > windowMax - stepSize
      ensures |window| > 0 ==> window[|window| - 1].t < x.t
      ensures Window(seen + [x], windowMin, windowMax) == window + Window([x], windowMin, windowMax)
      ensures forall k :: 0 <= k < |nulls| ==>
        Entry(k) == BatchEntry(seen + [x], lowestTime, stepSize, range, k, isCounter, isRate)
    {
      hide BatchEntry;
      var all := seen + [x];
      assert all[|seen|] == x && forall i :: 0 <= i < |seen| ==> all[i] == seen[i];
      assert |window| > 0 ==> window[|window| - 1] in window;
      WindowMembers(seen, windowMin, windowMax);
      WindowConcat(seen, [x], windowMin, windowMax);
      forall k | 0 <= k < |nulls|
        ensures Entry(k) == BatchEntry(all, lowestTime, stepSize, range, k, isCounter, isRate)
      {
        StepsGrow(k, |nulls| - 1, stepSize);
        EntryStable(seen, x, lowestTime, stepSize, range, k, isCounter, isRate);
      }
    }

    /** The final function: closes the remaining windows. The array has one
        entry for every window that ends by `greatestTime`, and each entry is
        what a batch computation over all the input gives. */
    method ToPgArray()
      requires Valid()
      modifies this
      ensures Consistent() && seen == old(seen)
      ensures forall k: nat :: k < |nulls| <==> lowestTime + k * stepSize + range <= greatestTime
    {
      while windowMax <= greatestTime
        invariant Consistent() && seen == old(seen)
        decreases greatestTime - windowMax
      {
        FlushCurrentWindow();
      }
      forall k: nat
        ensures k < |nulls| <==> lowestTime + k * stepSize + range <= greatestTime
      {
        if k < |nulls| {
          StepsGrow(k, |nulls| - 1, stepSize);
        } else {
          StepsGrow(|nulls|, k, stepSize);
        }
      }
    }
  }
}
