/** A range query against instant queries at its steps. */
module RangeVsInstant {
  import opened Common
  import opened Samples
  import opened Grid
  import opened MatrixWindow
  import opened PromExpr
  import opened Matrices
  import opened Evaluator

  ghost predicate SubGrid(start': int, end': int, step': int, start: int, end: int, step: int)
    requires step > 0 && step' > 0
  {
    && start <= start' && end' <= end
    && forall ts :: InGrid(ts, start', end', step') ==> InGrid(ts, start, end, step)
  }

  lemma AlignedSubGrid(lo': int, hi': int, lo: int, hi: int, st: int)
    requires st > 0 && lo <= lo' && hi' <= hi
    ensures SubGrid(AlignUp(lo', st), hi', st, AlignUp(lo, st), hi, st)
  {
    var a, a' := AlignUp(lo, st), AlignUp(lo', st);
    AlignUpIsNext(lo', st);
    AlignedGrid(a', lo, a', st);
    forall ts | InGrid(ts, a', hi', st) ensures InGrid(ts, a, hi, st) {
      AlignedGrid(ts, lo', hi', st);
      AlignedGrid(ts, lo, hi, st);
    }
  }

  /** A query that raises no error raises none on part of its steps either,
      down through all nested subqueries. */
  lemma {:induction false} RangeOkNarrows(env: Env, e: Expr, start: int, end: int, step: int, start': int, end': int, step': int)
    requires EnvOk(env) && WellFormed(e) && step > 0 && step' > 0
    requires SubGrid(start', end', step', start, end, step)
    requires RangeOk(env, e, start, end, step)
    ensures RangeOk(env, e, start', end', step')
    decreases e, 0
  {
    hide Meaning, CallOutputs, InGrid, NameClash;
    match e
    case StepCall(f, args) =>
      forall i | 0 <= i < |args| ensures RangeOk(env, args[i], start', end', step') {
        RangeOkNarrows(env, args[i], start, end, step, start', end', step');
      }
    case ScalarCall(_, args) =>
      forall i | 0 <= i < |args| ensures RangeOk(env, args[i], start', end', step') {
        RangeOkNarrows(env, args[i], start, end, step, start', end', step');
      }
    case VectorSelector(_, _) =>
    case RangeCall(_, arg, scalars) =>
      RangeArgOkNarrows(env, arg, start, end, start', end');
      forall i | 0 <= i < |scalars| ensures RangeOk(env, scalars[i], start', end', step') {
        RangeOkNarrows(env, scalars[i], start, end, step, start', end', step');
      }
    case Negate(e') => RangeOkNarrows(env, e', start, end, step, start', end', step');
    case Paren(e') => RangeOkNarrows(env, e', start, end, step, start', end', step');
  }

  lemma {:induction false} RangeArgOkNarrows(env: Env, arg: RangeArg, start: int, end: int, start': int, end': int)
    requires EnvOk(env) && ArgOk(arg) && start <= start' && end' <= end
    requires RangeArgOk(env, arg, start, end)
    ensures RangeArgOk(env, arg, start', end')
    decreases arg, 0
  {
    match arg
    case MatrixSelector(_, _, _) =>
    case Subquery(e, range, step, offset) =>
      var st := SubStep(env, step);
      var lo, lo', hi, hi' := start - offset - range, start' - offset - range, end - offset, end' - offset;
      AlignedSubGrid(lo', hi', lo, hi, st);
      RangeOkNarrows(env, e, AlignUp(lo, st), hi, st, AlignUp(lo', st), hi', st);
  }

  /** Range evaluation is stepwise instant evaluation: when a range query
      succeeds, the instant query at each of its timestamps succeeds too and
      returns the range result's slice there. */
  method CompareModes(env: Env, e: Expr, start: int, end: int, step: int, ts: int) returns (range: Result<Matrix>, instant: Result<Matrix>)
    requires EnvOk(env) && WellFormed(e) && step > 0 && InGrid(ts, start, end, step)
    ensures range.Ok? ==> instant.Ok? && Slice(range.value, ts) == Slice(instant.value, ts)
    ensures instant.Ok? ==> Slice(instant.value, ts) == Meaning(env, e, ts)
    ensures range.Ok? <==> RangeOk(env, e, start, end, step)
  {
    range := Eval(env, e, start, end, step);
    // an instant query is a range query with a single step
    instant := Eval(env, e, ts, ts, 1);
    assert SubGrid(ts, ts, 1, start, end, step);
    assert InGrid(ts, ts, ts, 1);
    hide RangeOk, Meaning;
    if RangeOk(env, e, start, end, step) {
      RangeOkNarrows(env, e, start, end, step, ts, ts, 1);
    }
  }

  // ----- what a range query adds to its instants -----

  /** A time at which the inner expression is evaluated although it lies in no step's window. */
  ghost predicate Gap(g: int, range: int, offset: int, start: int, end: int, step: int)
    requires step > 0
  {
    forall ts :: InGrid(ts, start, end, step) ==> !(ts - offset - range <= g <= ts - offset)
  }

  /** No two series with results at different steps lose their difference with the
      metric name, and no inner expression fails in a gap, down through all nested
      subqueries. */
  ghost predicate NothingAcross(env: Env, e: Expr, start: int, end: int, step: int)
    requires env.defaultInterval > 0 && WellFormed(e) && step > 0
    decreases e, 0
  {
    match e
    case StepCall(_, args) => forall i :: 0 <= i < |args| ==> NothingAcross(env, args[i], start, end, step)
    case ScalarCall(_, args) => forall i :: 0 <= i < |args| ==> NothingAcross(env, args[i], start, end, step)
    case VectorSelector(_, _) => true
    case RangeCall(_, arg, scalars) =>
      && ArgNothingAcross(env, arg, start, end, step)
      && (forall i :: 0 <= i < |scalars| ==> NothingAcross(env, scalars[i], start, end, step))
      && (forall ts, ts', k, k' :: InGrid(ts, start, end, step) && InGrid(ts', start, end, step) && ts != ts'
            && k in CallOutputs(env, e, ts) && k' in CallOutputs(env, e, ts')
            ==> !NameClash(k, k'))
    case Negate(e') =>
      && NothingAcross(env, e', start, end, step)
      && (forall ts, ts', k, k' :: InGrid(ts, start, end, step) && InGrid(ts', start, end, step) && ts != ts'
            && k in Meaning(env, e', ts) && k' in Meaning(env, e', ts')
            ==> !NameClash(k, k'))
    case Paren(e') => NothingAcross(env, e', start, end, step)
  }

  ghost predicate ArgNothingAcross(env: Env, arg: RangeArg, start: int, end: int, step: int)
    requires env.defaultInterval > 0 && ArgOk(arg) && step > 0
    decreases arg, 0
  {
    match arg
    case MatrixSelector(_, _, _) => true
    case Subquery(e, range, st', offset) =>
      var st := SubStep(env, st');
      var first := AlignUp(start - offset - range, st);
      && NothingAcross(env, e, first, end - offset, st)
      && forall g :: InGrid(g, first, end - offset, st) && Gap(g, range, offset, start, end, step) ==> RangeOk(env, e, g, g, 1)
  }

  ghost predicate AllInstantsOk(env: Env, e: Expr, start: int, end: int, step: int)
    requires env.defaultInterval > 0 && WellFormed(e) && step > 0
  {
    forall ts :: InGrid(ts, start, end, step) ==> RangeOk(env, e, ts, ts, 1)
  }

  lemma OneStep(ts: int, start: int, end: int, step: int)
    requires step > 0 && InGrid(ts, start, end, step)
    ensures SubGrid(ts, ts, 1, start, end, step) && InGrid(ts, ts, ts, 1)
  {
  }

  lemma InstantsOfRange(env: Env, e: Expr, start: int, end: int, step: int)
    requires EnvOk(env) && WellFormed(e) && step > 0 && RangeOk(env, e, start, end, step)
    ensures AllInstantsOk(env, e, start, end, step)
  {
    hide RangeOk;
    forall ts | InGrid(ts, start, end, step) ensures RangeOk(env, e, ts, ts, 1) {
      OneStep(ts, start, end, step);
      RangeOkNarrows(env, e, start, end, step, ts, ts, 1);
    }
  }

  lemma {:induction false} RangeHasNothingAcross(env: Env, e: Expr, start: int, end: int, step: int)
    requires EnvOk(env) && WellFormed(e) && step > 0 && RangeOk(env, e, start, end, step)
    ensures NothingAcross(env, e, start, end, step)
    decreases e, 1
  {
    hide Meaning, CallOutputs, InGrid, NameClash, RangeArgOk, ArgNothingAcross;
    match e
    case StepCall(_, args) =>
      forall i | 0 <= i < |args| ensures NothingAcross(env, args[i], start, end, step) {
        RangeHasNothingAcross(env, args[i], start, end, step);
      }
    case ScalarCall(_, args) =>
      forall i | 0 <= i < |args| ensures NothingAcross(env, args[i], start, end, step) {
        RangeHasNothingAcross(env, args[i], start, end, step);
      }
    case VectorSelector(_, _) =>
    case RangeCall(_, arg, scalars) =>
      ArgHasNothingAcross(env, arg, start, end, step);
      forall i | 0 <= i < |scalars| ensures NothingAcross(env, scalars[i], start, end, step) {
        RangeHasNothingAcross(env, scalars[i], start, end, step);
      }
    case Negate(e') => RangeHasNothingAcross(env, e', start, end, step);
    case Paren(e') => RangeHasNothingAcross(env, e', start, end, step);
  }

  lemma {:induction false} ArgHasNothingAcross(env: Env, arg: RangeArg, start: int, end: int, step: int)
    requires EnvOk(env) && ArgOk(arg) && step > 0 && RangeArgOk(env, arg, start, end)
    ensures ArgNothingAcross(env, arg, start, end, step)
    decreases arg, 1
  {
    hide RangeOk, NothingAcross, InGrid;
    match arg
    case MatrixSelector(_, _, _) =>
    case Subquery(e, range, st', offset) =>
      var st := SubStep(env, st');
      var first := AlignUp(start - offset - range, st);
      RangeHasNothingAcross(env, e, first, end - offset, st);
      InstantsOfRange(env, e, first, end - offset, st);
  }

  /** The subquery of the step whose window holds a time is evaluated there. */
  lemma WindowTimeOk(env: Env, e: Expr, range: int, offset: int, st: int, ts: int, start: int, end: int, step: int, g: int)
    requires EnvOk(env) && WellFormed(e) && step > 0 && st > 0 && InGrid(ts, start, end, step)
    requires RangeOk(env, e, AlignUp(ts - offset - range, st), ts - offset, st)
    requires InGrid(g, AlignUp(start - offset - range, st), end - offset, st) && ts - offset - range <= g <= ts - offset
    ensures RangeOk(env, e, g, g, 1)
  {
    hide RangeOk;
    AlignedGrid(g, start - offset - range, end - offset, st);
    AlignedGrid(g, ts - offset - range, ts - offset, st);
    OneStep(g, AlignUp(ts - offset - range, st), ts - offset, st);
    RangeOkNarrows(env, e, AlignUp(ts - offset - range, st), ts - offset, st, g, g, 1);
  }

  lemma {:induction false} ArgFromInstants(env: Env, arg: RangeArg, start: int, end: int, step: int)
    requires EnvOk(env) && ArgOk(arg) && step > 0 && ArgNothingAcross(env, arg, start, end, step)
    requires forall ts :: InGrid(ts, start, end, step) ==> RangeArgOk(env, arg, ts, ts)
    ensures RangeArgOk(env, arg, start, end)
    decreases arg, 1
  {
    hide RangeOk, NothingAcross, InGrid;
    match arg
    case MatrixSelector(_, _, _) =>
    case Subquery(e, range, st', offset) =>
      var st := SubStep(env, st');
      var first := AlignUp(start - offset - range, st);
      forall g | InGrid(g, first, end - offset, st) ensures RangeOk(env, e, g, g, 1) {
        if ts :| InGrid(ts, start, end, step) && ts - offset - range <= g <= ts - offset {
          assert RangeArgOk(env, arg, ts, ts);
          WindowTimeOk(env, e, range, offset, st, ts, start, end, step, g);
        } else {
          assert Gap(g, range, offset, start, end, step);
        }
      }
      RangeFromInstants(env, e, first, end - offset, st);
  }

  lemma {:induction false} RangeFromInstants(env: Env, e: Expr, start: int, end: int, step: int)
    requires EnvOk(env) && WellFormed(e) && step > 0
    requires AllInstantsOk(env, e, start, end, step) && NothingAcross(env, e, start, end, step)
    ensures RangeOk(env, e, start, end, step)
    decreases e, 1
  {
    hide Meaning, CallOutputs, NameClash, RangeArgOk, ArgNothingAcross;
    assert forall ts :: InGrid(ts, ts, ts, 1);
    match e
    case StepCall(_, args) =>
      forall i | 0 <= i < |args| ensures RangeOk(env, args[i], start, end, step) {
        RangeFromInstants(env, args[i], start, end, step);
      }
    case ScalarCall(_, args) =>
      forall i | 0 <= i < |args| ensures RangeOk(env, args[i], start, end, step) {
        RangeFromInstants(env, args[i], start, end, step);
      }
    case VectorSelector(_, _) =>
    case RangeCall(_, arg, scalars) =>
      forall ts | InGrid(ts, start, end, step) ensures RangeArgOk(env, arg, ts, ts) {
        assert RangeOk(env, e, ts, ts, 1);
      }
      ArgFromInstants(env, arg, start, end, step);
      forall i | 0 <= i < |scalars| ensures RangeOk(env, scalars[i], start, end, step) {
        RangeFromInstants(env, scalars[i], start, end, step);
      }
    case Negate(e') => RangeFromInstants(env, e', start, end, step);
    case Paren(e') => RangeFromInstants(env, e', start, end, step);
  }

  /** A range query succeeds if and only if the instant query at each of its steps
      does and nothing goes wrong across steps or between them. */
  lemma RangeExactly(env: Env, e: Expr, start: int, end: int, step: int)
    requires EnvOk(env) && WellFormed(e) && step > 0
    ensures RangeOk(env, e, start, end, step) <==> AllInstantsOk(env, e, start, end, step) && NothingAcross(env, e, start, end, step)
  {
    hide RangeOk, AllInstantsOk, NothingAcross;
    if RangeOk(env, e, start, end, step) {
      InstantsOfRange(env, e, start, end, step);
      RangeHasNothingAcross(env, e, start, end, step);
    }
    if AllInstantsOk(env, e, start, end, step) && NothingAcross(env, e, start, end, step) {
      RangeFromInstants(env, e, start, end, step);
    }
  }

  const UP: Metric := map[METRIC_NAME := "up"]
  const DOWN: Metric := map[METRIC_NAME := "down"]

  /** A range function over two series that only differ in their name and never have a sample in the same window. */
  function Alternating(): Expr {
    RangeCall((sc, pts, ts) => Some(0.0),
              MatrixSelector(map[UP := [Sample(0, Num(1.0))], DOWN := [Sample(10, Num(1.0))]], 1, 0), [])
  }

  lemma AlternatingOutputs(env: Env, ts: int)
    requires EnvOk(env)
    ensures WellFormed(Alternating())
    ensures (UP in CallOutputs(env, Alternating(), ts) <==> 0 <= ts <= 1) && (DOWN in CallOutputs(env, Alternating(), ts) <==> 10 <= ts <= 11)
    ensures CallOutputs(env, Alternating(), ts).Keys <= {UP, DOWN}
  {
    var up, down := [Sample(0, Num(1.0))], [Sample(10, Num(1.0))];
    assert Window(up, ts - 1, ts) == if 0 <= ts <= 1 then [Point(0, 1.0)] else [] by { assert up[1..] == []; }
    assert Window(down, ts - 1, ts) == if 10 <= ts <= 11 then [Point(10, 1.0)] else [] by { assert down[1..] == []; }
    assert METRIC_NAME in UP && UP[METRIC_NAME] != DOWN[METRIC_NAME];
  }

  lemma OneKey(v: Vector, a: Metric, b: Metric)
    requires v.Keys <= {a, b} && b !in v
    ensures forall k, k' :: k in v && k' in v ==> !NameClash(k, k')
  {
  }

  lemma AlternatingInstant(env: Env, ts: int)
    requires EnvOk(env) && (ts == 0 || ts == 10)
    ensures WellFormed(Alternating()) && RangeOk(env, Alternating(), ts, ts, 1)
  {
    AlternatingOutputs(env, ts);
    if ts == 0 {
      OneKey(CallOutputs(env, Alternating(), ts), UP, DOWN);
    } else {
      OneKey(CallOutputs(env, Alternating(), ts), DOWN, UP);
    }
    hide CallOutputs, NameClash;
    assert forall t :: InGrid(t, ts, ts, 1) ==> t == ts;
  }

  /** A function that fails at one time only. */
  function FailsAt5(ts: int, args: seq<Vector>): Result<seq<VectorSample>> {
    if ts == 5 then Err else Ok([])
  }

  /** A range function over a subquery whose range is shorter than the steps of the query. */
  function Skipping(): Expr {
    RangeCall((sc, pts, ts) => Some(0.0), Subquery(StepCall(FailsAt5, []), 1, 1, 0), [])
  }

  lemma SkippingInstant(env: Env, ts: int)
    requires EnvOk(env) && (ts == 0 || ts == 10)
    ensures WellFormed(Skipping()) && RangeOk(env, Skipping(), ts, ts, 1)
  {
    var e := Skipping();
    var inner := StepCall(FailsAt5, []);
    AlignUpIsNext(ts - 1, 1);
    assert AlignUp(ts - 1, 1) == ts - 1;
    assert RangeOk(env, inner, ts - 1, ts, 1);
    assert RangeArgOk(env, e.arg, ts, ts);
    NoSeries(env, ts);
    hide CallOutputs;
    assert forall t :: InGrid(t, ts, ts, 1) ==> t == ts;
  }

  lemma NoSeries(env: Env, ts: int)
    requires EnvOk(env) && (ts == 0 || ts == 10)
    ensures WellFormed(Skipping()) && CallOutputs(env, Skipping(), ts) == map[]
  {
    var inner := StepCall(FailsAt5, []);
    AlignUpIsNext(ts - 1, 1);
    assert AlignUp(ts - 1, 1) == ts - 1;
    assert ToVector([]) == map[];
    assert Meaning(env, inner, ts - 1) == map[] && Meaning(env, inner, ts) == map[];
    hide Meaning;
    assert SubKeys(env, inner, ts + 1, ts, 1) == {};
    assert SubKeys(env, inner, ts, ts, 1) == {};
    assert SubKeys(env, inner, ts - 1, ts, 1) == {};
    assert RangeData(env, Skipping().arg, ts) == map[];
  }

  /** Nor does it hold without any name being dropped: a subquery is evaluated once
      for all steps, and can fail at a time that no step looks at. */
  lemma GapCanFailAlone(env: Env)
    requires EnvOk(env)
    ensures WellFormed(Skipping())
    ensures RangeOk(env, Skipping(), 0, 0, 1) && RangeOk(env, Skipping(), 10, 10, 1)
    ensures !RangeOk(env, Skipping(), 0, 10, 10)
  {
    SkippingInstant(env, 0);
    SkippingInstant(env, 10);
    hide CallOutputs;
    var inner := StepCall(FailsAt5, []);
    AlignUpIsNext(-1, 1);
    assert AlignUp(-1, 1) == -1;
    assert InGrid(5, -1, 10, 1);
    assert !RangeOk(env, inner, -1, 10, 1);
  }

  /** The converse does not hold: a range query can fail where the instant query
      succeeds at every step, when two series that lose their difference with the
      metric name have results at different steps. */
  lemma RangeCanFailAlone(env: Env)
    requires EnvOk(env)
    ensures WellFormed(Alternating())
    ensures RangeOk(env, Alternating(), 0, 0, 1) && RangeOk(env, Alternating(), 10, 10, 1)
    ensures !RangeOk(env, Alternating(), 0, 10, 10)
  {
    AlternatingInstant(env, 0);
    AlternatingInstant(env, 10);
    AlternatingOutputs(env, 0);
    AlternatingOutputs(env, 10);
    assert NameClash(UP, DOWN) by {
      assert METRIC_NAME in UP && UP[METRIC_NAME] != DOWN[METRIC_NAME];
      assert DropName(UP) == DropName(DOWN);
    }
    hide CallOutputs, NameClash, WellFormed;
    assert InGrid(0, 0, 10, 10) && InGrid(10, 0, 10, 10);
  }
}
