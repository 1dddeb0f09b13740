/** A pushed-down `delta` node inside the evaluator. */
module PushdownNode {
  import opened Common
  import opened Samples
  import opened Grid
  import opened MatrixWindow
  import opened RangeFunctions
  import opened Pushdown
  import opened PromExpr
  import opened Matrices

  import opened Evaluator

  /** `delta(selector[range])`. */
  function DeltaCall(series: Stored, range: int): Expr
    requires range > 0
  {
    RangeCall((sc, pts, ts) => RateValue(pts, ts, range, 0, false, false), MatrixSelector(series, range, 0), [])
  }

  /** The series of one metric, which is all that a query is pushed down for. */
  ghost predicate OneMetric(series: Stored, name: string) {
    forall k :: k in series ==> METRIC_NAME in k && k[METRIC_NAME] == name
  }

  lemma SameNameNoClash(series: Stored, name: string)
    requires OneMetric(series, name)
    ensures forall k, k' :: k in series && k' in series ==> !NameClash(k, k')
  {
    forall k, k' | k in series && k' in series && DropName(k) == DropName(k') ensures k == k' {
      assert k == DropName(k)[METRIC_NAME := name];
      assert k' == DropName(k')[METRIC_NAME := name];
    }
  }

  /** The matrix read back for a pushed-down node, series by series; no check for equal label sets is made. */
  method PushdownRows(series: Stored, start: int, end: int, hintStep: int, range: int) returns (m: Matrix)
    requires StoredOk(series) && range > 0
    requires hintStep >= 0 && (hintStep == 0 ==> start == end)
    ensures OnGrid(m, start, end, EngineInterval(hintStep)) && m.Keys <= series.Keys
    ensures forall k, ts :: k in series && InGrid(ts, start, end, EngineInterval(hintStep)) ==>
      RowAt(m, k, ts) == StepValue(series[k], RateFn(range, 0, false, false), ts, range, 0)
  {
    hide StepValue, PushdownOutcome;
    var step := EngineInterval(hintStep);
    m := map[];
    var keys := series.Keys;
    while keys != {}
      invariant keys <= series.Keys && m.Keys <= series.Keys - keys
      invariant OnGrid(m, start, end, step)
      invariant forall k, ts :: k in series.Keys - keys && InGrid(ts, start, end, step) ==>
        RowAt(m, k, ts) == StepValue(series[k], RateFn(range, 0, false, false), ts, range, 0)
      decreases keys
    {
      var k :| k in keys;
      keys := keys - {k};
      var r := PushdownSeries(series[k], start, end, hintStep, range, 0, false);
      PushdownPreservesMeaning(series[k], start, end, hintStep, range, false);
      var points := r.points;
      CollectFacts(StepAt(series[k], RateFn(range, 0, false, false), range, 0), start, end, step);
      if points != [] {
        m := m[k := points];
      }
    }
  }

  lemma RowsAreDelta(env: Env, series: Stored, range: int, m: Matrix, ts: int)
    requires EnvOk(env) && StoredOk(series) && range > 0 && m.Keys <= series.Keys
    requires forall k :: k in series ==> RowAt(m, k, ts) == StepValue(series[k], RateFn(range, 0, false, false), ts, range, 0)
    ensures WellFormed(DeltaCall(series, range))
    ensures Slice(m, ts) == CallOutputs(env, DeltaCall(series, range), ts)
  {
    hide Window, RateValue, At;
    var e := DeltaCall(series, range);
    var sc := ScalarsOf(Meanings(env, e.scalars, ts));
    assert forall k :: k in series ==> RowAt(m, k, ts) == OutputAt(e.rf, sc, series[k], ts, range, 0);
    hide OutputAt;
    assert Slice(m, ts) == Outputs(e.rf, sc, series, ts, range, 0);
  }

  /** Replacing the evaluation of a `delta` node by what was pushed down changes
      nothing: the result represents the node, as the evaluator's own result
      does, and the evaluator would not have raised an error. */
  method EvalPushedDown(env: Env, series: Stored, name: string, start: int, end: int, hintStep: int, range: int)
      returns (pushed: Matrix, own: Result<Matrix>)
    requires EnvOk(env) && StoredOk(series) && OneMetric(series, name) && range > 0
    requires hintStep >= 0 && (hintStep == 0 ==> start == end)
    ensures WellFormed(DeltaCall(series, range))
    ensures Represents(env, DeltaCall(series, range), pushed, start, end, EngineInterval(hintStep))
    ensures own.Ok? && forall ts :: InGrid(ts, start, end, EngineInterval(hintStep)) ==> Slice(pushed, ts) == Slice(own.value, ts)
  {
    var step := EngineInterval(hintStep);
    var m := PushdownRows(series, start, end, hintStep, range);
    SameNameNoClash(series, name);
    assert WellFormed(DeltaCall(series, range));
    var e := DeltaCall(series, range);
    hide NameClash, StepValue, Slice, Renamed, CallOutputs, DropName;
    assert NoClash(m);
    forall ts | InGrid(ts, start, end, step) ensures Slice(m, ts) == CallOutputs(env, e, ts) {
      RowsAreDelta(env, series, range, m, ts);
    }
    // every series is read back without its metric name
    pushed := RenameRows(m);
    RenameRowsOnGrid(m, start, end, step);
    forall ts | InGrid(ts, start, end, step) ensures Slice(pushed, ts) == Meaning(env, e, ts) {
      RenameRowsSlice(m, ts);
    }
    ClashFacts(m, start, end, step);
    own := Eval(env, e, start, end, step);
  }
}
