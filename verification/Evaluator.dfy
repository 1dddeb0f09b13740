/** The evaluator over whole expressions: a range query yields, at every step,
    what the expression means at that instant. */
module Evaluator {
  import opened Common
  import opened Samples
  import opened Grid
  import opened MatrixWindow
  import opened PromExpr
  import opened Matrices

  import opened StepLoops

  ghost predicate EnvOk(env: Env) {
    env.defaultInterval > 0 && env.lookback >= 0
  }

  /** A matrix that holds the meaning of `e` at every step and nothing else. */
  ghost predicate Represents(env: Env, e: Expr, m: Matrix, start: int, end: int, step: int)
    requires EnvOk(env) && WellFormed(e) && step > 0
  {
    && OnGrid(m, start, end, step)
    && forall ts :: InGrid(ts, start, end, step) ==> Slice(m, ts) == Meaning(env, e, ts)
  }

  // ----- scalar arguments -----

  lemma {:induction false} ScalarHasOneKey(env: Env, e: Expr, ts: int)
    requires EnvOk(env) && WellFormed(e) && IsScalar(e)
    ensures Meaning(env, e, ts).Keys == {NO_LABELS}
  {
    match e
    case ScalarCall(_, _) =>
    case Paren(e') => ScalarHasOneKey(env, e', ts);
  }

  ghost predicate Dense(points: seq<Point>, start: int, end: int, step: int)
    requires step > 0
  {
    && PointsOnGrid(points, start, end, step)
    && forall ts :: InGrid(ts, start, end, step) ==> At(points, ts).Some?
  }

  lemma DenseTail(points: seq<Point>, start: int, end: int, step: int)
    requires step > 0 && start <= end && Dense(points, start, end, step)
    ensures points != [] && points[0].t == start
    ensures Dense(points[1..], start + step, end, step)
  {
    GridStep(start, start, end, step);
    AtMember(points, start);
    assert points[0] in points;
    forall p | p in points[1..] ensures InGrid(p.t, start + step, end, step) {
      GridTail(p.t, start, end, step);
    }
    forall ts | InGrid(ts, start + step, end, step) ensures At(points[1..], ts).Some? {
      GridTail(ts, start, end, step);
    }
  }

  /** Points without gaps are found by their step number. */
  lemma {:induction false} DensePoints(points: seq<Point>, start: int, end: int, step: int, n: nat)
    requires step > 0 && Dense(points, start, end, step)
    requires start + n * step <= end
    ensures n < |points| && points[n].t == start + n * step
    decreases n
  {
    hide Dense;
    assert n * step >= 0;
    DenseTail(points, start, end, step);
    if n > 0 {
      assert (n - 1) * step == n * step - step;
      DensePoints(points[1..], start + step, end, step, n - 1);
    }
  }

  /** The value of a scalar argument at a step, looked up by step number. */
  function PointAt(m: Matrix, n: int): real {
    if NO_LABELS in m && 0 <= n < |m[NO_LABELS]| then m[NO_LABELS][n].v else 0.0
  }

  function ScalarsAt(ms: seq<Matrix>, start: int, step: int, ts: int): (r: seq<real>)
    requires step > 0
    ensures |r| == |ms|
    ensures forall i :: 0 <= i < |ms| ==> r[i] == PointAt(ms[i], (ts - start) / step)
  {
    seq(|ms|, i requires 0 <= i < |ms| => PointAt(ms[i], (ts - start) / step))
  }

  lemma DenseLookup(points: seq<Point>, start: int, end: int, step: int, ts: int)
    requires step > 0 && Dense(points, start, end, step) && InGrid(ts, start, end, step)
    ensures 0 <= (ts - start) / step < |points|
    ensures At(points, ts) == Some(points[(ts - start) / step].v)
  {
    var n := (ts - start) / step;
    assert ts == start + n * step;
    DensePoints(points, start, end, step, n);
    AtMember(points, ts);
    assert points[n] in points;
  }

  lemma ScalarLookup(env: Env, e: Expr, m: Matrix, start: int, end: int, step: int, ts: int)
    requires EnvOk(env) && WellFormed(e) && IsScalar(e) && step > 0
    requires Represents(env, e, m, start, end, step) && InGrid(ts, start, end, step)
    ensures PointAt(m, (ts - start) / step) == ScalarOf(Meaning(env, e, ts))
  {
    hide Meaning, Represents, Dense;
    ScalarRow(env, e, m, start, end, step, ts);
    DenseLookup(m[NO_LABELS], start, end, step, ts);
  }

  lemma ScalarRow(env: Env, e: Expr, m: Matrix, start: int, end: int, step: int, ts: int)
    requires EnvOk(env) && WellFormed(e) && IsScalar(e) && step > 0
    requires Represents(env, e, m, start, end, step) && InGrid(ts, start, end, step)
    ensures NO_LABELS in m && Dense(m[NO_LABELS], start, end, step)
    ensures NO_LABELS in Meaning(env, e, ts) && At(m[NO_LABELS], ts) == Some(Meaning(env, e, ts)[NO_LABELS])
  {
    forall t | InGrid(t, start, end, step)
      ensures NO_LABELS in m && NO_LABELS in Meaning(env, e, t) && At(m[NO_LABELS], t) == Some(Meaning(env, e, t)[NO_LABELS])
    {
      ScalarHasOneKey(env, e, t);
      assert NO_LABELS in Slice(m, t);
      hide Meaning;
    }
    hide Meaning;
  }

  // ----- rows of selectors and range calls -----

  method SelectorRows(series: Stored, offset: int, lookback: int, start: int, end: int, step: int) returns (m: Matrix)
    requires StoredOk(series) && lookback >= 0 && step > 0
    ensures OnGrid(m, start, end, step) && m.Keys <= series.Keys
    ensures forall k, ts :: k in series && InGrid(ts, start, end, step) ==>
      RowAt(m, k, ts) == Latest(series[k], ts - offset, lookback)
  {
    hide Latest;
    m := map[];
    var keys := series.Keys;
    while keys != {}
      invariant keys <= series.Keys && m.Keys <= series.Keys - keys
      invariant OnGrid(m, start, end, step)
      invariant forall k, ts :: k in series.Keys - keys && InGrid(ts, start, end, step) ==>
        RowAt(m, k, ts) == Latest(series[k], ts - offset, lookback)
      decreases keys
    {
      var k :| k in keys;
      keys := keys - {k};
      var points := SelectSeries(series[k], offset, lookback, start, end, step);
      CollectFacts(SelectAt(series[k], offset, lookback), start, end, step);
      if points != [] {
        m := m[k := points];
      }
    }
  }

  function RowAt(m: Matrix, k: Metric, ts: int): Option<real> {
    if k in m then At(m[k], ts) else None
  }

  /** The matrix loop over all series of a range argument. */
  method RangeRows(data: Stored, f: RangeFn, range: int, offset: int, start: int, end: int, step: int) returns (m: Matrix)
    requires StoredOk(data) && range >= 0 && step > 0
    ensures OnGrid(m, start, end, step) && m.Keys <= data.Keys
    ensures forall k, ts :: k in data && InGrid(ts, start, end, step) ==>
      RowAt(m, k, ts) == StepValue(data[k], f, ts, range, offset)
  {
    hide StepValue;
    m := map[];
    var keys := data.Keys;
    while keys != {}
      invariant keys <= data.Keys && m.Keys <= data.Keys - keys
      invariant OnGrid(m, start, end, step)
      invariant forall k, ts :: k in data.Keys - keys && InGrid(ts, start, end, step) ==>
        RowAt(m, k, ts) == StepValue(data[k], f, ts, range, offset)
      decreases keys
    {
      var k :| k in keys;
      keys := keys - {k};
      var points := MatrixSeries(data[k], f, start, end, step, range, offset);
      CollectFacts(StepAt(data[k], f, range, offset), start, end, step);
      if points != [] {
        m := m[k := points];
      }
    }
  }

  // ----- subqueries -----

  /** A computed row as a stored series. */
  function AsSamples(points: seq<Point>): (r: seq<Sample>)
    ensures |r| == |points|
    ensures forall i :: 0 <= i < |points| ==> r[i] == Sample(points[i].t, Num(points[i].v))
  {
    seq(|points|, i requires 0 <= i < |points| => Sample(points[i].t, Num(points[i].v)))
  }

  function AsStored(m: Matrix): Stored {
    map k | k in m :: AsSamples(m[k])
  }

  function WindowOf(data: Stored, k: Metric, lo: int, hi: int): seq<Point> {
    if k in data then Window(data[k], lo, hi) else []
  }

  lemma AsSamplesWindow(points: seq<Point>, lo: int, hi: int)
    requires AscendingPoints(points)
    ensures Ascending(AsSamples(points))
    ensures AscendingPoints(Window(AsSamples(points), lo, hi))
    ensures forall p :: p in Window(AsSamples(points), lo, hi) <==> p in points && lo <= p.t <= hi
  {
    var s := AsSamples(points);
    WindowAscending(s, lo, hi);
    WindowMembers(s, lo, hi);
    forall p: Point ensures Sample(p.t, Num(p.v)) in s <==> p in points {
      if p in points {
        var i :| 0 <= i < |points| && points[i] == p;
        assert s[i] in s;
      }
    }
  }

  lemma {:induction false} SubSamplesMembers(env: Env, e: Expr, k: Metric, g: int, hi: int, step: int)
    requires EnvOk(env) && WellFormed(e) && step > 0
    ensures Ascending(SubSamples(env, e, k, g, hi, step))
    ensures forall x :: x in SubSamples(env, e, k, g, hi, step) <==>
      InGrid(x.t, g, hi, step) && k in Meaning(env, e, x.t) && x.v == Num(Meaning(env, e, x.t)[k])
    decreases hi - g
  {
    hide Meaning;
    if g <= hi {
      SubSamplesMembers(env, e, k, g + step, hi, step);
      GridStep(g, g, hi, step);
      forall x: Sample ensures InGrid(x.t, g + step, hi, step) <==> InGrid(x.t, g, hi, step) && x.t != g {
        GridTail(x.t, g, hi, step);
      }
    }
  }

  lemma {:induction false} SubKeysMembers(env: Env, e: Expr, g: int, hi: int, step: int)
    requires EnvOk(env) && WellFormed(e) && step > 0
    ensures forall k, t :: InGrid(t, g, hi, step) && k in Meaning(env, e, t) ==> k in SubKeys(env, e, g, hi, step)
    decreases hi - g
  {
    hide Meaning;
    if g <= hi {
      SubKeysMembers(env, e, g + step, hi, step);
      forall k, t | InGrid(t, g, hi, step) && k in Meaning(env, e, t) ensures k in SubKeys(env, e, g, hi, step) {
        GridTail(t, g, hi, step);
      }
    }
  }

  /** A point of the window a subquery is asked for: a multiple of the step where the inner expression has the series. */
  ghost predicate SubPoint(env: Env, e: Expr, k: Metric, lo: int, hi: int, st: int, p: Point)
    requires EnvOk(env) && WellFormed(e) && st > 0
  {
    lo <= p.t <= hi && p.t % st == 0 && k in Meaning(env, e, p.t) && p.v == Meaning(env, e, p.t)[k]
  }

  lemma DirectWindow(env: Env, e: Expr, k: Metric, lo: int, hi: int, st: int)
    requires EnvOk(env) && WellFormed(e) && st > 0
    ensures var w := WindowOf(SubData(env, e, AlignUp(lo, st), hi, st), k, lo, hi);
            AscendingPoints(w) && forall p :: p in w <==> SubPoint(env, e, k, lo, hi, st, p)
  {
    hide Meaning;
    var g := AlignUp(lo, st);
    SubSamplesMembers(env, e, k, g, hi, st);
    SubKeysMembers(env, e, g, hi, st);
    var s := SubSamples(env, e, k, g, hi, st);
    WindowAscending(s, lo, hi);
    WindowMembers(s, lo, hi);
    forall p: Point ensures Sample(p.t, Num(p.v)) in s && lo <= p.t <= hi <==> SubPoint(env, e, k, lo, hi, st, p) {
      AlignedGrid(p.t, lo, hi, st);
    }
    forall p: Point | SubPoint(env, e, k, lo, hi, st, p) ensures k in SubKeys(env, e, g, hi, st) {
      AlignedGrid(p.t, lo, hi, st);
    }
  }

  lemma CarriedWindow(env: Env, e: Expr, m: Matrix, k: Metric, from: int, to: int, lo: int, hi: int, st: int)
    requires EnvOk(env) && WellFormed(e) && st > 0
    requires Represents(env, e, m, AlignUp(from, st), to, st)
    requires from <= lo && hi <= to
    ensures var w := WindowOf(AsStored(m), k, lo, hi);
            AscendingPoints(w) && forall p :: p in w <==> SubPoint(env, e, k, lo, hi, st, p)
  {
    hide Meaning;
    var g := AlignUp(from, st);
    if k in m {
      AsSamplesWindow(m[k], lo, hi);
    }
    forall p: Point ensures (k in m && p in m[k] && lo <= p.t <= hi) <==> SubPoint(env, e, k, lo, hi, st, p) {
      AlignedGrid(p.t, from, to, st);
      if k in m {
        AtMember(m[k], p.t);
      }
      if InGrid(p.t, g, to, st) {
        assert Slice(m, p.t) == Meaning(env, e, p.t);
      }
    }
  }

  /** A subquery evaluated once for all steps serves every step's window with
      exactly the points of a subquery evaluated for that step alone. */
  lemma SubqueryOnce(env: Env, e: Expr, m: Matrix, k: Metric, from: int, to: int, lo: int, hi: int, st: int)
    requires EnvOk(env) && WellFormed(e) && st > 0
    requires Represents(env, e, m, AlignUp(from, st), to, st)
    requires from <= lo && hi <= to
    ensures WindowOf(AsStored(m), k, lo, hi) == WindowOf(SubData(env, e, AlignUp(lo, st), hi, st), k, lo, hi)
  {
    hide Meaning, SubData, WindowOf, Represents, AlignUp;
    DirectWindow(env, e, k, lo, hi, st);
    CarriedWindow(env, e, m, k, from, to, lo, hi, st);
    SameMembers(WindowOf(AsStored(m), k, lo, hi), WindowOf(SubData(env, e, AlignUp(lo, st), hi, st), k, lo, hi));
  }

  ghost predicate SameWindows(a: Stored, b: Stored, lo: int, hi: int) {
    forall k :: WindowOf(a, k, lo, hi) == WindowOf(b, k, lo, hi)
  }

  lemma OutputsFromWindows(f: RangeCallFn, sc: seq<real>, a: Stored, b: Stored, ts: int, range: int, offset: int)
    requires SameWindows(a, b, ts - offset - range, ts - offset)
    ensures Outputs(f, sc, a, ts, range, offset) == Outputs(f, sc, b, ts, range, offset)
  {
    hide Window;
    var x, y := Outputs(f, sc, a, ts, range, offset), Outputs(f, sc, b, ts, range, offset);
    forall k ensures (k in x <==> k in y) && (k in x ==> x[k] == y[k]) {
      assert WindowOf(a, k, ts - offset - range, ts - offset) == WindowOf(b, k, ts - offset - range, ts - offset);
    }
  }

  // ----- the evaluator -----

  /** The data a range call reads at `ts`, as the evaluator has it: stored, or computed once for all steps. */
  ghost predicate DataFor(env: Env, arg: RangeArg, data: Stored, ts: int)
    requires EnvOk(env) && ArgOk(arg)
  {
    SameWindows(data, RangeData(env, arg, ts), ts - arg.offset - arg.range, ts - arg.offset)
  }

  method EvalRangeArg(env: Env, arg: RangeArg, start: int, end: int) returns (ok: bool, data: Stored)
    requires EnvOk(env) && ArgOk(arg)
    ensures ok <==> RangeArgOk(env, arg, start, end)
    ensures ok ==> StoredOk(data) && forall ts :: start <= ts <= end ==> DataFor(env, arg, data, ts)
    decreases arg, 0
  {
    hide Meaning;
    match arg
    case MatrixSelector(series, _, _) =>
      return true, series;
    case Subquery(e, range, step, offset) =>
      var st := SubStep(env, step);
      var from, to := start - offset - range, end - offset;
      var r := Eval(env, e, AlignUp(from, st), to, st);
      if r.Err? {
        return false, map[];
      }
      data := AsStored(r.value);
      SubqueryServes(env, arg, r.value, start, end);
      return true, data;
  }

  /** The matrix of a subquery evaluated once has the right window for every step. */
  lemma SubqueryServes(env: Env, arg: RangeArg, m: Matrix, start: int, end: int)
    requires EnvOk(env) && ArgOk(arg) && arg.Subquery?
    requires var st := SubStep(env, arg.step);
      Represents(env, arg.e, m, AlignUp(start - arg.offset - arg.range, st), end - arg.offset, st)
    ensures StoredOk(AsStored(m)) && forall ts :: start <= ts <= end ==> DataFor(env, arg, AsStored(m), ts)
  {
    hide Meaning, SubData, WindowOf, AlignUp, Window;
    var st := SubStep(env, arg.step);
    var from, to := start - arg.offset - arg.range, end - arg.offset;
    forall k | k in m ensures Ascending(AsStored(m)[k]) {
      AsSamplesWindow(m[k], from, to);
    }
    forall ts | start <= ts <= end ensures DataFor(env, arg, AsStored(m), ts) {
      var lo, hi := ts - arg.offset - arg.range, ts - arg.offset;
      forall k ensures WindowOf(AsStored(m), k, lo, hi) == WindowOf(RangeData(env, arg, ts), k, lo, hi) {
        SubqueryOnce(env, arg.e, m, k, from, to, lo, hi, st);
      }
    }
  }

  method EvalAll(env: Env, es: seq<Expr>, start: int, end: int, step: int) returns (ok: bool, ms: seq<Matrix>)
    requires EnvOk(env) && step > 0 && forall i :: 0 <= i < |es| ==> WellFormed(es[i])
    ensures ok <==> forall i :: 0 <= i < |es| ==> RangeOk(env, es[i], start, end, step)
    ensures ok ==> |ms| == |es| && forall i :: 0 <= i < |es| ==> Represents(env, es[i], ms[i], start, end, step)
    decreases es, 0
  {
    hide Represents, RangeOk;
    ms := [];
    for i := 0 to |es|
      invariant |ms| == i
      invariant forall j :: 0 <= j < i ==> RangeOk(env, es[j], start, end, step) && Represents(env, es[j], ms[j], start, end, step)
    {
      var r := Eval(env, es[i], start, end, step);
      if r.Err? {
        return false, ms;
      }
      ms := ms + [r.value];
    }
    return true, ms;
  }

  lemma SlicesAreMeanings(env: Env, es: seq<Expr>, ms: seq<Matrix>, start: int, end: int, step: int, ts: int)
    requires EnvOk(env) && step > 0 && |ms| == |es|
    requires forall i :: 0 <= i < |es| ==> WellFormed(es[i]) && Represents(env, es[i], ms[i], start, end, step)
    requires InGrid(ts, start, end, step)
    ensures Slices(ms, ts) == Meanings(env, es, ts)
  {
    hide Meaning;
  }

  /** Evaluates an expression for the steps start, start + step, ... up to end.
      It fails exactly when `RangeOk` does not hold, and otherwise its slice at
      every step is what the expression means at that instant. */
  method Eval(env: Env, e: Expr, start: int, end: int, step: int) returns (r: Result<Matrix>)
    requires EnvOk(env) && WellFormed(e) && step > 0
    ensures r.Ok? <==> RangeOk(env, e, start, end, step)
    ensures r.Ok? ==> Represents(env, e, r.value, start, end, step)
    decreases e, 1
  {
    match e
    case StepCall(f, args) =>
      r := EvalStepCall(env, e, start, end, step);
    case ScalarCall(_, _) =>
      r := EvalScalarCall(env, e, start, end, step);
    case VectorSelector(series, offset) =>
      var m := SelectorRows(series, offset, env.lookback, start, end, step);
      SelectorRepresents(env, e, m, start, end, step);
      r := Ok(m);
    case RangeCall(_, _, _) =>
      r := EvalRangeCall(env, e, start, end, step);
    case Negate(_) =>
      ghost var operand;
      r, operand := EvalNegate(env, e, start, end, step);
    case Paren(e') =>
      r := Eval(env, e', start, end, step);
  }

  lemma SelectorRepresents(env: Env, e: Expr, m: Matrix, start: int, end: int, step: int)
    requires EnvOk(env) && WellFormed(e) && step > 0 && e.VectorSelector?
    requires OnGrid(m, start, end, step) && m.Keys <= e.series.Keys
    requires forall k, ts :: k in e.series && InGrid(ts, start, end, step) ==>
      RowAt(m, k, ts) == Latest(e.series[k], ts - e.offset, env.lookback)
    ensures Represents(env, e, m, start, end, step)
  {
    forall ts | InGrid(ts, start, end, step) ensures Slice(m, ts) == Meaning(env, e, ts) {
      assert forall k :: k in e.series ==> RowAt(m, k, ts) == LatestOf(e.series, k, ts - e.offset, env.lookback);
      hide LatestOf, At;
    }
  }

  method EvalStepCall(env: Env, e: Expr, start: int, end: int, step: int) returns (r: Result<Matrix>)
    requires EnvOk(env) && WellFormed(e) && step > 0 && e.StepCall?
    ensures r.Ok? <==> RangeOk(env, e, start, end, step)
    ensures r.Ok? ==> Represents(env, e, r.value, start, end, step)
    decreases e, 0
  {
    var ok, ms := EvalAll(env, e.args, start, end, step);
    if !ok {
      return Err;
    }
    forall ts | InGrid(ts, start, end, step) ensures Slices(ms, ts) == Meanings(env, e.args, ts) {
      SlicesAreMeanings(env, e.args, ms, start, end, step, ts);
    }
    r := RangeEval(e.f, ms, start, end, step);
  }

  method EvalScalarCall(env: Env, e: Expr, start: int, end: int, step: int) returns (r: Result<Matrix>)
    requires EnvOk(env) && WellFormed(e) && step > 0 && e.ScalarCall?
    ensures r.Ok? <==> RangeOk(env, e, start, end, step)
    ensures r.Ok? ==> Represents(env, e, r.value, start, end, step)
    decreases e, 0
  {
    var ok, ms := EvalAll(env, e.sargs, start, end, step);
    if !ok {
      return Err;
    }
    var f: StepFn := (ts, vs) => Ok([VectorSample(NO_LABELS, e.sf(ts, vs))]);
    forall ts | InGrid(ts, start, end, step) ensures StepOk(f, ms, ts) && ToVector(f(ts, Slices(ms, ts)).value) == Meaning(env, e, ts) {
      SlicesAreMeanings(env, e.sargs, ms, start, end, step, ts);
      assert ToVector([]) == map[];
    }
    r := RangeEval(f, ms, start, end, step);
  }

  function NegatePoints(points: seq<Point>): (r: seq<Point>)
    ensures |r| == |points|
    ensures forall i :: 0 <= i < |points| ==> r[i] == Point(points[i].t, -points[i].v)
  {
    seq(|points|, i requires 0 <= i < |points| => Point(points[i].t, -points[i].v))
  }

  function NegatedRows(m: Matrix): Matrix {
    map k | k in m :: NegatePoints(m[k])
  }

  lemma {:induction false} NegatedAt(points: seq<Point>, ts: int)
    ensures At(NegatePoints(points), ts) == match At(points, ts) case None => None case Some(v) => Some(-v)
  {
    if points != [] {
      assert NegatePoints(points)[1..] == NegatePoints(points[1..]);
      NegatedAt(points[1..], ts);
    }
  }

  lemma NegatedOnGrid(m: Matrix, start: int, end: int, step: int)
    requires step > 0 && OnGrid(m, start, end, step)
    ensures OnGrid(NegatedRows(m), start, end, step)
  {
    forall k | k in m ensures PointsOnGrid(NegatePoints(m[k]), start, end, step) {
      assert forall i :: 0 <= i < |m[k]| ==> m[k][i] in m[k];
    }
  }

  lemma NegatedSlice(m: Matrix, ts: int)
    ensures Slice(NegatedRows(m), ts) == map k | k in Slice(m, ts) :: -Slice(m, ts)[k]
  {
    forall k | k in m ensures At(NegatePoints(m[k]), ts) == match At(m[k], ts) case None => None case Some(v) => Some(-v) {
      NegatedAt(m[k], ts);
    }
    hide At;
  }

  /** No two slices of the matrix, at whatever steps, have label sets that differ only in the name. */
  ghost predicate SlicesApart(m: Matrix, start: int, end: int, step: int)
    requires step > 0
  {
    forall ts, ts', k, k' ::
      (InGrid(ts, start, end, step) && InGrid(ts', start, end, step) && k in Slice(m, ts) && k' in Slice(m, ts'))
      ==> !NameClash(k, k')
  }

  lemma ClashFacts(m: Matrix, start: int, end: int, step: int)
    requires step > 0 && OnGrid(m, start, end, step)
    ensures NoClash(m) <==> SlicesApart(m, start, end, step)
  {
    hide NameClash, InGrid;
    if SlicesApart(m, start, end, step) {
      forall k, k' | k in m && k' in m ensures !NameClash(k, k') {
        var ts := RowHasSlice(m, k, start, end, step);
        var ts' := RowHasSlice(m, k', start, end, step);
      }
    }
  }

  /** The last part of a range call and of a negation: an error if dropping the
      metric name makes two rows the same, the renamed rows otherwise. */
  method DropNames(m: Matrix, start: int, end: int, step: int) returns (r: Result<Matrix>)
    requires step > 0 && OnGrid(m, start, end, step)
    ensures r.Ok? <==> SlicesApart(m, start, end, step)
    ensures r.Ok? ==> OnGrid(r.value, start, end, step) && forall ts :: Slice(r.value, ts) == Renamed(Slice(m, ts))
  {
    ClashFacts(m, start, end, step);
    hide SlicesApart, OnGrid, Slice, Renamed, RenameRows;
    if !NoClash(m) {
      return Err;
    }
    RenameRowsOnGrid(m, start, end, step);
    forall ts ensures Slice(RenameRows(m), ts) == Renamed(Slice(m, ts)) {
      RenameRowsSlice(m, ts);
    }
    r := Ok(RenameRows(m));
  }

  /** A vector whose values are the opposite of those of another one, under its
      label sets without the metric name. */
  ghost predicate Opposite(r: Vector, v: Vector) {
    && (forall k :: k in v ==> k - {"__name__"} in r && r[k - {"__name__"}] + v[k] == 0.0)
    && (forall k' :: k' in r ==> exists k :: k in v && k - {"__name__"} == k')
  }

  lemma RenamedOpposite(v: Vector)
    requires forall k, k' :: k in v && k' in v ==> !NameClash(k, k')
    ensures Opposite(Renamed(map k | k in v :: -v[k]), v)
  {
    hide Renamed, NameClash;
    var negated: Vector := map k | k in v :: -v[k];
    RenamedVector(negated);
    forall k | k in v ensures DropName(k) in Renamed(negated) && Renamed(negated)[DropName(k)] + v[k] == 0.0 {
      assert k in negated;
    }
    forall k' | k' in Renamed(negated) ensures exists k :: k in v && DropName(k) == k' {
      var k :| k in negated && DropName(k) == k';
      assert k in v;
    }
  }

  /** `-e`: where it does not fail, every step has the opposite of what the
      operand, evaluated on its own, has there. */
  method EvalNegate(env: Env, e: Expr, start: int, end: int, step: int) returns (r: Result<Matrix>, ghost operand: Matrix)
    requires EnvOk(env) && WellFormed(e) && step > 0 && e.Negate?
    ensures r.Ok? <==> RangeOk(env, e, start, end, step)
    ensures r.Ok? ==> Represents(env, e, r.value, start, end, step)
    ensures r.Ok? ==> Represents(env, e.e, operand, start, end, step)
    ensures r.Ok? ==> forall ts :: InGrid(ts, start, end, step) ==> Opposite(Slice(r.value, ts), Slice(operand, ts))
    decreases e, 0
  {
    hide Renamed, Slice, OnGrid, NameClash, InGrid, Opposite;
    var inner := Eval(env, e.e, start, end, step);
    operand := map[];
    if inner.Err? {
      return Err, operand;
    }
    operand := inner.value;
    var m := NegatedRows(inner.value);
    NegatedOnGrid(inner.value, start, end, step);
    forall ts | InGrid(ts, start, end, step)
      ensures Slice(m, ts) == var v := Meaning(env, e.e, ts); map k | k in v :: -v[k]
    {
      NegatedSlice(inner.value, ts);
    }
    r := DropNames(m, start, end, step);
    if r.Ok? {
      forall ts | InGrid(ts, start, end, step) ensures Opposite(Slice(r.value, ts), Slice(operand, ts)) {
        NegatedSlice(inner.value, ts);
        RenamedOpposite(Slice(operand, ts));
      }
    }
  }

  lemma RowsAreOutputs(env: Env, e: Expr, data: Stored, ms: seq<Matrix>, f: RangeFn, m: Matrix, start: int, end: int, step: int, ts: int)
    requires EnvOk(env) && WellFormed(e) && step > 0 && e.RangeCall? && InGrid(ts, start, end, step)
    requires |ms| == |e.scalars| && forall i :: 0 <= i < |ms| ==> Represents(env, e.scalars[i], ms[i], start, end, step)
    requires DataFor(env, e.arg, data, ts) && m.Keys <= data.Keys
    requires forall pts, t :: f(pts, t) == e.rf(ScalarsAt(ms, start, step, t), pts, t)
    requires forall k :: k in data ==> RowAt(m, k, ts) == StepValue(data[k], f, ts, e.arg.range, e.arg.offset)
    ensures Slice(m, ts) == CallOutputs(env, e, ts)
  {
    hide Meaning, Represents, Window, At, RangeData;
    var sc := ScalarsOf(Meanings(env, e.scalars, ts));
    forall i | 0 <= i < |ms| ensures ScalarsAt(ms, start, step, ts)[i] == sc[i] {
      ScalarLookup(env, e.scalars[i], ms[i], start, end, step, ts);
    }
    assert ScalarsAt(ms, start, step, ts) == sc;
    assert forall k :: k in data ==> RowAt(m, k, ts) == OutputAt(e.rf, sc, data[k], ts, e.arg.range, e.arg.offset);
    hide OutputAt;
    assert Slice(m, ts) == Outputs(e.rf, sc, data, ts, e.arg.range, e.arg.offset);
    OutputsFromWindows(e.rf, sc, data, RangeData(env, e.arg, ts), ts, e.arg.range, e.arg.offset);
  }

  method EvalRangeCall(env: Env, e: Expr, start: int, end: int, step: int) returns (r: Result<Matrix>)
    requires EnvOk(env) && WellFormed(e) && step > 0 && e.RangeCall?
    ensures r.Ok? <==> RangeOk(env, e, start, end, step)
    ensures r.Ok? ==> Represents(env, e, r.value, start, end, step)
    decreases e, 0
  {
    hide CallOutputs, Renamed, Slice, OnGrid, NameClash, DataFor;
    var fine, data := EvalRangeArg(env, e.arg, start, end);
    if !fine {
      return Err;
    }
    var ok, ms := EvalAll(env, e.scalars, start, end, step);
    if !ok {
      return Err;
    }
    var f: RangeFn := (pts, ts) => e.rf(ScalarsAt(ms, start, step, ts), pts, ts);
    var m := RangeRows(data, f, e.arg.range, e.arg.offset, start, end, step);
    forall ts | InGrid(ts, start, end, step) ensures Slice(m, ts) == CallOutputs(env, e, ts) {
      RowsAreOutputs(env, e, data, ms, f, m, start, end, step, ts);
    }
    r := DropNames(m, start, end, step);
  }
}
