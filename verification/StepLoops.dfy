/** The evaluator's loops: gathering the input of a step by advancing along the
    points, calling the step function, and appending its output; and selecting
    the instant values of a series through a buffered iterator. */
module StepLoops {
  import opened Common
  import opened Samples
  import opened Grid
  import opened MatrixWindow
  import opened PromExpr

  import opened Matrices

  function DropBefore(points: seq<Point>, ts: int): seq<Point> {
    if points != [] && points[0].t < ts then DropBefore(points[1..], ts) else points
  }

  /** A matrix with the points before `ts` consumed. */
  ghost function From(m: Matrix, ts: int): Matrix {
    map k | k in m :: DropBefore(m[k], ts)
  }

  predicate AtHead(points: seq<Point>, ts: int) {
    points != [] && points[0].t == ts
  }

  /** On a grid, looking at the first remaining point is enough, and moving past
      it is all it takes to be ready for the next step. */
  lemma {:induction false} HeadIsSlice(points: seq<Point>, ts: int, start: int, end: int, step: int)
    requires step > 0 && PointsOnGrid(points, start, end, step) && InGrid(ts, start, end, step)
    ensures var d := DropBefore(points, ts);
            && At(points, ts) == (if AtHead(d, ts) then Some(d[0].v) else None)
            && DropBefore(points, ts + step) == (if AtHead(d, ts) then d[1..] else d)
  {
    if points != [] {
      var p := points[0];
      assert p in points;
      if p.t < ts {
        HeadIsSlice(points[1..], ts, start, end, step);
      } else if p.t == ts {
        if |points| > 1 {
          assert points[1] in points;
          GridGap(ts, points[1].t, start, step);
        }
      } else {
        GridGap(ts, p.t, start, step);
        AtNothing(points, ts);
      }
    }
  }

  ghost function Heads(m: Matrix, ts: int): Vector {
    map k | k in m && AtHead(m[k], ts) :: m[k][0].v
  }

  ghost function Advanced(m: Matrix, ts: int): Matrix {
    map k | k in m :: if AtHead(m[k], ts) then m[k][1..] else m[k]
  }

  lemma HeadsAreSlice(m: Matrix, ts: int, start: int, end: int, step: int)
    requires step > 0 && OnGrid(m, start, end, step) && InGrid(ts, start, end, step)
    ensures Heads(From(m, ts), ts) == Slice(m, ts)
    ensures Advanced(From(m, ts), ts) == From(m, ts + step)
  {
    forall k | k in m
      ensures var d := From(m, ts)[k];
              && At(m[k], ts) == (if AtHead(d, ts) then Some(d[0].v) else None)
              && DropBefore(m[k], ts + step) == (if AtHead(d, ts) then d[1..] else d)
    {
      HeadIsSlice(m[k], ts, start, end, step);
    }
    hide At, DropBefore, InGrid, PointsOnGrid;
    assert Heads(From(m, ts), ts) == Slice(m, ts);
    assert Advanced(From(m, ts), ts) == From(m, ts + step);
  }

  /** The input vector of a step, and the matrix moved on to the next step. */
  method GatherAt(m: Matrix, ts: int) returns (vec: Vector, rest: Matrix)
    ensures vec == Heads(m, ts)
    ensures rest == Advanced(m, ts)
  {
    vec, rest := map[], map[];
    var keys := m.Keys;
    while keys != {}
      invariant keys <= m.Keys
      invariant vec == map k | k in m.Keys - keys && AtHead(m[k], ts) :: m[k][0].v
      invariant rest == map k | k in m.Keys - keys :: if AtHead(m[k], ts) then m[k][1..] else m[k]
      decreases keys
    {
      var k :| k in keys;
      keys := keys - {k};
      if AtHead(m[k], ts) {
        vec := vec[k := m[k][0].v];
        rest := rest[k := m[k][1..]];
      } else {
        rest := rest[k := m[k]];
      }
    }
  }

  ghost function Slices(ms: seq<Matrix>, ts: int): (r: seq<Vector>)
    ensures |r| == |ms|
    ensures forall i :: 0 <= i < |ms| ==> r[i] == Slice(ms[i], ts)
  {
    seq(|ms|, i requires 0 <= i < |ms| => Slice(ms[i], ts))
  }

  method GatherAll(ms: seq<Matrix>, ts: int, ghost origin: seq<Matrix>, ghost start: int, ghost end: int, ghost step: int)
      returns (vecs: seq<Vector>, rests: seq<Matrix>)
    requires step > 0 && InGrid(ts, start, end, step)
    requires |ms| == |origin|
    requires forall i :: 0 <= i < |ms| ==> OnGrid(origin[i], start, end, step) && ms[i] == From(origin[i], ts)
    ensures vecs == Slices(origin, ts)
    ensures |rests| == |ms| && forall i :: 0 <= i < |ms| ==> rests[i] == From(origin[i], ts + step)
  {
    hide OnGrid, From, Slice, InGrid;
    vecs, rests := [], [];
    for i := 0 to |ms|
      invariant |vecs| == |rests| == i
      invariant forall j :: 0 <= j < i ==> vecs[j] == Slice(origin[j], ts) && rests[j] == From(origin[j], ts + step)
    {
      var vec, rest := GatherAt(ms[i], ts);
      HeadsAreSlice(origin[i], ts, start, end, step);
      vecs, rests := vecs + [vec], rests + [rest];
    }
  }

  /** A matrix with a vector appended to its rows at `ts`. */
  ghost function Extended(m: Matrix, v: Vector, ts: int): Matrix {
    map k | k in m.Keys + v.Keys :: (if k in m then m[k] else []) + (if k in v then [Point(ts, v[k])] else [])
  }

  lemma ToVectorKeys(s: seq<VectorSample>)
    ensures forall k :: k in ToVector(s) <==> exists i :: 0 <= i < |s| && s[i].metric == k
  {
    if s != [] {
      ToVectorKeys(s[..|s| - 1]);
      assert forall i :: 0 <= i < |s| - 1 ==> s[..|s| - 1][i] == s[i];
    }
  }

  lemma ExtendedOne(m: Matrix, v: Vector, k: Metric, x: real, ts: int)
    requires k !in v
    ensures var r := Extended(m, v, ts);
            r[k := (if k in r then r[k] else []) + [Point(ts, x)]] == Extended(m, v[k := x], ts)
  {
    var r := Extended(m, v, ts);
    var before: seq<Point> := if k in m then m[k] else [];
    assert (if k in r then r[k] else []) == before + [];
    assert before + [] + [Point(ts, x)] == before + [Point(ts, x)];
  }

  method AppendResult(m: Matrix, result: seq<VectorSample>, ts: int) returns (r: Matrix)
    requires Unique(result)
    ensures r == Extended(m, ToVector(result), ts)
  {
    r := m;
    assert forall k :: k in m ==> m[k] + [] == m[k];
    assert m == Extended(m, map[], ts);
    for i := 0 to |result|
      invariant r == Extended(m, ToVector(result[..i]), ts)
    {
      var s := result[i];
      ToVectorKeys(result[..i]);
      assert s.metric !in ToVector(result[..i]);
      assert result[..i + 1][..i] == result[..i];
      ExtendedOne(m, ToVector(result[..i]), s.metric, s.v, ts);
      r := r[s.metric := (if s.metric in r then r[s.metric] else []) + [Point(ts, s.v)]];
    }
    assert result[..|result|] == result;
  }

  ghost predicate EndsBefore(m: Matrix, ts: int) {
    forall k, p :: k in m && p in m[k] ==> p.t < ts
  }

  lemma ExtendedAt(points: seq<Point>, v: Option<real>, ts: int, t: int)
    requires forall p :: p in points ==> p.t < ts
    ensures At(points + (if v.Some? then [Point(ts, v.value)] else []), t) == if t == ts then v else At(points, t)
  {
    if v.Some? {
      AtAppend(points, Point(ts, v.value), t);
    } else {
      assert points + [] == points;
      NotThere(points, ts);
    }
  }

  lemma ExtendedKey(m: Matrix, v: Vector, ts: int, t: int, k: Metric)
    requires EndsBefore(m, ts) && k in Extended(m, v, ts)
    ensures At(Extended(m, v, ts)[k], t)
         == if t == ts then (if k in v then Some(v[k]) else None) else (if k in m then At(m[k], t) else None)
  {
    ExtendedAt(if k in m then m[k] else [], if k in v then Some(v[k]) else None, ts, t);
  }

  lemma ExtendedSliceNow(m: Matrix, v: Vector, ts: int)
    requires EndsBefore(m, ts)
    ensures Slice(Extended(m, v, ts), ts) == v
  {
    var r := Extended(m, v, ts);
    forall k | k in r ensures At(r[k], ts) == if k in v then Some(v[k]) else None {
      ExtendedKey(m, v, ts, ts, k);
    }
  }

  lemma ExtendedSliceBefore(m: Matrix, v: Vector, ts: int, t: int)
    requires EndsBefore(m, ts) && t != ts
    ensures Slice(Extended(m, v, ts), t) == Slice(m, t)
  {
    var r := Extended(m, v, ts);
    forall k | k in r ensures At(r[k], t) == if k in m then At(m[k], t) else None {
      ExtendedKey(m, v, ts, t, k);
    }
    hide At, EndsBefore;
  }

  lemma {:induction false} NotThere(points: seq<Point>, ts: int)
    requires forall p :: p in points ==> p.t < ts
    ensures At(points, ts) == None
  {
    if points != [] {
      NotThere(points[1..], ts);
    }
  }

  lemma ExtendedOnGrid(m: Matrix, v: Vector, ts: int, start: int, end: int, step: int)
    requires step > 0 && OnGrid(m, start, end, step) && EndsBefore(m, ts) && InGrid(ts, start, end, step)
    ensures OnGrid(Extended(m, v, ts), start, end, step)
    ensures EndsBefore(Extended(m, v, ts), ts + step)
  {
    var r := Extended(m, v, ts);
    forall k | k in r ensures r[k] != [] && PointsOnGrid(r[k], start, end, step) && forall p: Point :: p in r[k] ==> p.t < ts + step {
      if k in m {
        assert PointsOnGrid(m[k], start, end, step);
      }
    }
  }

  /** A step that goes through: the function yields a vector without equal label sets. */
  ghost predicate StepOk(f: StepFn, mats: seq<Matrix>, ts: int) {
    var r := f(ts, Slices(mats, ts));
    r.Ok? && Unique(r.value)
  }

  /** What the loop has built before `ts`: at every earlier step, what the function gave. */
  ghost predicate DoneBefore(f: StepFn, mats: seq<Matrix>, out: Matrix, ts: int, start: int, end: int, step: int)
    requires step > 0
  {
    && OnGrid(out, start, end, step) && EndsBefore(out, ts)
    && (forall t :: InGrid(t, start, end, step) && t < ts ==> DoneAt(f, mats, out, t))
  }

  ghost predicate DoneAt(f: StepFn, mats: seq<Matrix>, out: Matrix, t: int) {
    StepOk(f, mats, t) && Slice(out, t) == ToVector(f(t, Slices(mats, t)).value)
  }

  lemma NothingDone(f: StepFn, mats: seq<Matrix>, start: int, end: int, step: int)
    requires step > 0
    ensures DoneBefore(f, mats, map[], start, start, end, step)
  {
    hide DoneAt;
  }

  lemma AllDone(f: StepFn, mats: seq<Matrix>, out: Matrix, ts: int, start: int, end: int, step: int)
    requires step > 0 && ts > end && DoneBefore(f, mats, out, ts, start, end, step)
    ensures forall t :: InGrid(t, start, end, step) ==> DoneAt(f, mats, out, t)
    ensures OnGrid(out, start, end, step)
  {
    hide DoneAt, OnGrid;
  }

  /** Appends the output of one step, in whatever order it comes. */
  method AppendStep(ghost f: StepFn, ghost mats: seq<Matrix>, out: Matrix, result: seq<VectorSample>, ts: int, ghost start: int, ghost end: int, ghost step: int)
      returns (r: Matrix)
    requires step > 0 && InGrid(ts, start, end, step) && DoneBefore(f, mats, out, ts, start, end, step)
    requires StepOk(f, mats, ts) && Unique(result) && ToVector(result) == ToVector(f(ts, Slices(mats, ts)).value)
    ensures DoneBefore(f, mats, r, ts + step, start, end, step)
  {
    hide ToVector, Slice, Extended, DoneAt, StepOk, Slices;
    r := AppendResult(out, result, ts);
    ExtendedOnGrid(out, ToVector(result), ts, start, end, step);
    DoneNow(f, mats, out, result, ts);
    forall t | InGrid(t, start, end, step) && t < ts + step ensures DoneAt(f, mats, r, t) {
      if t < ts {
        StillDone(f, mats, out, ToVector(result), ts, t);
      } else if t > ts {
        GridGap(ts, t, start, step);
      }
    }
  }

  lemma DoneNow(f: StepFn, mats: seq<Matrix>, out: Matrix, result: seq<VectorSample>, ts: int)
    requires EndsBefore(out, ts) && StepOk(f, mats, ts) && ToVector(result) == ToVector(f(ts, Slices(mats, ts)).value)
    ensures DoneAt(f, mats, Extended(out, ToVector(result), ts), ts)
  {
    hide EndsBefore, Extended, Slice, Slices, ToVector;
    ExtendedSliceNow(out, ToVector(result), ts);
  }

  lemma StillDone(f: StepFn, mats: seq<Matrix>, out: Matrix, v: Vector, ts: int, t: int)
    requires EndsBefore(out, ts) && t != ts && DoneAt(f, mats, out, t)
    ensures DoneAt(f, mats, Extended(out, v, ts), t)
  {
    hide EndsBefore, Extended, Slice, Slices, ToVector;
    ExtendedSliceBefore(out, v, ts, t);
  }

  /** `rangeEval`. The result has, at every step, exactly what the function gives
      for the slices of the arguments at that step; it fails exactly when some step does. */
  method RangeEval(f: StepFn, mats: seq<Matrix>, start: int, end: int, step: int) returns (r: Result<Matrix>)
    requires step > 0 && forall i :: 0 <= i < |mats| ==> OnGrid(mats[i], start, end, step)
    ensures r.Ok? <==> forall ts :: InGrid(ts, start, end, step) ==> StepOk(f, mats, ts)
    ensures r.Ok? ==> OnGrid(r.value, start, end, step)
    ensures r.Ok? ==> forall ts :: InGrid(ts, start, end, step) ==> Slice(r.value, ts) == ToVector(f(ts, Slices(mats, ts)).value)
  {
    hide DoneBefore, OnGrid, From, Slice, Slices, ToVector;
    var cur := mats;
    var out: Matrix := map[];
    var ts := start;
    StartUnconsumed(mats, start, end, step);
    NothingDone(f, mats, start, end, step);
    GridStep(start, start, end, step);
    while ts <= end
      invariant start <= ts && (ts - start) % step == 0
      invariant |cur| == |mats| && forall i :: 0 <= i < |mats| ==> cur[i] == From(mats[i], ts)
      invariant DoneBefore(f, mats, out, ts, start, end, step)
      decreases end - ts
    {
      assert InGrid(ts, start, end, step);
      var vecs, rests := GatherAll(cur, ts, mats, start, end, step);
      cur := rests;
      var result := f(ts, vecs);
      if result.Err? || !Unique(result.value) {
        assert !StepOk(f, mats, ts);
        return Err;
      }
      out := AppendStep(f, mats, out, result.value, ts, start, end, step);
      GridStep(ts, start, end, step);
      ts := ts + step;
    }
    AllDone(f, mats, out, ts, start, end, step);
    forall t | InGrid(t, start, end, step) ensures StepOk(f, mats, t) && Slice(out, t) == ToVector(f(t, Slices(mats, t)).value) {
      assert DoneAt(f, mats, out, t);
    }
    r := Ok(out);
  }

  lemma StartUnconsumed(mats: seq<Matrix>, start: int, end: int, step: int)
    requires step > 0 && forall i :: 0 <= i < |mats| ==> OnGrid(mats[i], start, end, step)
    ensures forall i :: 0 <= i < |mats| ==> mats[i] == From(mats[i], start)
  {
    forall i | 0 <= i < |mats| ensures mats[i] == From(mats[i], start) {
      forall k | k in mats[i] ensures DropBefore(mats[i][k], start) == mats[i][k] {
        assert mats[i][k][0] in mats[i][k];
      }
    }
  }

  // ----- vector selectors -----

  /** Where `n` samples are at or before `t`, the last of them decides. */
  lemma {:induction false} LatestDecides(s: seq<Sample>, t: int, lookback: int, n: nat)
    requires n <= |s|
    requires forall i :: n <= i < |s| ==> s[i].t > t
    requires n > 0 ==> s[n - 1].t <= t
    ensures Latest(s, t, lookback)
         == if n == 0 || s[n - 1].t < t - lookback || s[n - 1].v.StaleNaN? then None else Some(s[n - 1].v.r)
  {
    if |s| > n {
      LatestDecides(s[..|s| - 1], t, lookback, n);
    }
  }

  /** What the sample at or before `t` says if it is not too old. */
  function Fresh(x: Sample, t: int, lookback: int): Option<real> {
    if x.t < t - lookback || x.v.StaleNaN? then None else Some(x.v.r)
  }

  /** After a seek the current sample decides if it is at `t`, otherwise the last buffered one. */
  lemma LatestSought(s: seq<Sample>, buf: seq<Sample>, cur: nat, t: int, lookback: int)
    requires Ascending(s) && lookback >= 0 && cur == Before(s, t) && |buf| <= cur && buf == s[cur - |buf|..cur]
    requires forall i :: 0 <= i < cur - |buf| ==> s[i].t < t - lookback
    ensures cur < |s| && s[cur].t <= t ==> Latest(s, t, lookback) == Fresh(s[cur], t, lookback)
    ensures !(cur < |s| && s[cur].t <= t) ==> Latest(s, t, lookback) == if buf == [] then None else Fresh(buf[|buf| - 1], t, lookback)
  {
    hide Latest;
    BeforeAscending(s, t);
    if cur < |s| && s[cur].t <= t {
      LatestDecides(s, t, lookback, cur + 1);
    } else {
      LatestDecides(s, t, lookback, cur);
      assert buf != [] ==> buf[|buf| - 1] == s[cur - 1];
    }
  }

  method VectorSelectorSingle(it: BufferedIterator, ts: int, offset: int, lookback: int) returns (r: Option<real>)
    requires Ascending(it.series) && it.delta == lookback >= 0
    modifies it
    ensures it.delta == lookback
    ensures r == Latest(it.series, ts - offset, lookback)
  {
    hide Latest, Ascending, Before;
    var refTime := ts - offset;
    var ok := it.Seek(refTime);
    LatestSought(it.series, it.buf, it.cur, refTime, lookback);
    var x: Sample;
    if ok && it.series[it.cur].t <= refTime {
      assert it.series[it.cur].t == refTime;
      x := it.series[it.cur];
    } else {
      if it.buf == [] {
        return None;
      }
      x := it.buf[|it.buf| - 1];
      if x.t < refTime - lookback {
        return None;
      }
    }
    if x.v.StaleNaN? {
      return None;
    }
    return Some(x.v.r);
  }

  function SelectAt(s: seq<Sample>, offset: int, lookback: int): int -> Option<real> {
    ts => Latest(s, ts - offset, lookback)
  }

  /** One series of a vector selector over all steps, through one iterator. */
  method SelectSeries(s: seq<Sample>, offset: int, lookback: int, start: int, end: int, step: int) returns (r: seq<Point>)
    requires Ascending(s) && lookback >= 0 && step > 0
    ensures r == Collect(SelectAt(s, offset, lookback), start, end, step)
  {
    hide Latest, Ascending;
    var it := new BufferedIterator(s, lookback);
    r := [];
    var ts := start;
    while ts <= end
      invariant it.series == s && it.delta == lookback && fresh(it)
      invariant r + Collect(SelectAt(s, offset, lookback), ts, end, step) == Collect(SelectAt(s, offset, lookback), start, end, step)
      decreases end - ts
    {
      var v := VectorSelectorSingle(it, ts, offset, lookback);
      if v.Some? {
        r := r + [Point(ts, v.value)];
      }
      ts := ts + step;
    }
  }
}
