/** What each kind of expression means, said of the stored samples and of the
    operands alone. */
module MeaningLaws {
  import opened Common
  import opened Samples
  import opened Grid
  import opened PromExpr
  import opened Matrices
  import opened Evaluator
  import opened NodeOrder

  /** A slice has exactly the values of the points at its time. */
  lemma SliceMeans(m: Matrix, ts: int, k: Metric, x: real)
    requires forall l :: l in m ==> AscendingPoints(m[l])
    ensures (k in Slice(m, ts) && Slice(m, ts)[k] == x) <==> (k in m && Point(ts, x) in m[k])
  {
    if k in m {
      AtMember(m[k], ts);
      if At(m[k], ts).Some? {
        var p :| p in m[k] && p.t == ts;
        assert p == Point(ts, p.v);
      }
    }
  }

  /** The value at `i` is the last one not after `t`, a number, and recent enough. */
  ghost predicate LatestAt(s: seq<Sample>, i: nat, t: int, lookback: int, x: real) {
    && i < |s| && s[i].v == Num(x) && t - lookback <= s[i].t <= t
    && forall j :: i < j < |s| ==> s[j].t > t
  }

  ghost predicate HasLatest(s: seq<Sample>, t: int, lookback: int, x: real) {
    exists i: nat :: LatestAt(s, i, t, lookback, x)
  }

  lemma {:induction false} LatestMeans(s: seq<Sample>, t: int, lookback: int, x: real)
    requires Ascending(s)
    ensures Latest(s, t, lookback) == Some(x) <==> HasLatest(s, t, lookback, x)
  {
    if s != [] {
      var n := |s| - 1;
      var init := s[..n];
      LatestMeans(init, t, lookback, x);
      if s[n].t > t {
        forall i: nat | LatestAt(init, i, t, lookback, x) ensures LatestAt(s, i, t, lookback, x) {
        }
        forall i: nat | LatestAt(s, i, t, lookback, x) ensures LatestAt(init, i, t, lookback, x) {
          assert i != n;
        }
      } else {
        assert forall i: nat :: LatestAt(s, i, t, lookback, x) ==> i == n;
        assert s[n].v == Num(x) && t - lookback <= s[n].t ==> LatestAt(s, n, t, lookback, x);
      }
    }
  }

  /** A selector has, for exactly the series whose last sample up to the shifted
      time is a number within the lookback, that number. */
  lemma SelectorMeans(env: Env, series: Stored, offset: int, ts: int, k: Metric, x: real)
    requires EnvOk(env) && StoredOk(series)
    ensures var v := Meaning(env, VectorSelector(series, offset), ts);
      (k in v && v[k] == x) <==> (k in series && HasLatest(series[k], ts - offset, env.lookback, x))
  {
    hide Latest, HasLatest, Ascending;
    if k in series {
      LatestMeans(series[k], ts - offset, env.lookback, x);
    }
  }

  /** `-e` at one instant. */
  lemma NegationMeans(env: Env, e: Expr, ts: int)
    requires EnvOk(env) && WellFormed(e) && RangeOk(env, Negate(e), ts, ts, 1)
    ensures Opposite(Meaning(env, Negate(e), ts), Meaning(env, e, ts))
  {
    hide Renamed, NameClash, Opposite;
    assert InGrid(ts, ts, ts, 1);
    RenamedOpposite(Meaning(env, e, ts));
  }

  /** A scalar expression has one value and no labels, and that value is its scalar. */
  lemma ScalarMeans(env: Env, e: Expr, ts: int)
    requires EnvOk(env) && WellFormed(e) && IsScalar(e)
    ensures Meaning(env, e, ts).Keys == {map[]} && ScalarOf(Meaning(env, e, ts)) == Meaning(env, e, ts)[map[]]
    ensures e.ScalarCall? ==> Meaning(env, e, ts)[map[]] == e.sf(ts, Meanings(env, e.sargs, ts))
    ensures e.Paren? ==> Meaning(env, e, ts) == Meaning(env, e.e, ts)
  {
    ScalarHasOneKey(env, e, ts);
  }

  /** The scalar looked up by step number in an evaluated row is the value at that step. */
  lemma ScalarRowMeans(env: Env, e: Expr, m: Matrix, start: int, end: int, step: int, ts: int)
    requires EnvOk(env) && WellFormed(e) && IsScalar(e) && step > 0
    requires Represents(env, e, m, start, end, step) && InGrid(ts, start, end, step)
    ensures map[] in m && Point(ts, PointAt(m, (ts - start) / step)) in m[map[]]
  {
    hide Meaning, Represents, Dense;
    ScalarRow(env, e, m, start, end, step, ts);
    DenseLookup(m[NO_LABELS], start, end, step, ts);
    DenseAt(m[NO_LABELS], start, end, step, ts);
  }

  lemma DenseAt(points: seq<Point>, start: int, end: int, step: int, ts: int)
    requires step > 0 && Dense(points, start, end, step) && InGrid(ts, start, end, step)
    ensures forall x :: At(points, ts) == Some(x) ==> Point(ts, x) in points
  {
    AtMember(points, ts);
    var p :| p in points && p.t == ts;
    assert p == Point(ts, p.v);
  }

  /** An operator or function of vectors has exactly the samples of its output. */
  lemma StepCallMeans(env: Env, f: StepFn, args: seq<Expr>, ts: int, x: VectorSample)
    requires EnvOk(env) && WellFormed(StepCall(f, args)) && RangeOk(env, StepCall(f, args), ts, ts, 1)
    ensures var out := f(ts, Meanings(env, args, ts));
      var v := Meaning(env, StepCall(f, args), ts);
      out.Ok? && (x in out.value <==> x.metric in v && v[x.metric] == x.v)
  {
    hide ToVector, Unique;
    assert InGrid(ts, ts, ts, 1);
    InVector(f(ts, Meanings(env, args, ts)).value, x);
  }

  // ----- calls with a range argument -----

  /** The points a range argument has for a series at `ts`: those stored in the
      window, or the values of the inner expression at the multiples of the step. */
  ghost predicate InArgument(env: Env, arg: RangeArg, ts: int, k: Metric, p: Point)
    requires EnvOk(env) && ArgOk(arg)
  {
    && ts - arg.offset - arg.range <= p.t <= ts - arg.offset
    && match arg
       case MatrixSelector(series, _, _) => k in series && Sample(p.t, Num(p.v)) in series[k]
       case Subquery(e, _, step, _) =>
         && p.t % (if step != 0 then step else env.defaultInterval) == 0
         && k in Meaning(env, e, p.t) && Meaning(env, e, p.t)[k] == p.v
  }

  lemma ArgumentWindow(env: Env, arg: RangeArg, ts: int, k: Metric)
    requires EnvOk(env) && ArgOk(arg)
    ensures var w := WindowOf(RangeData(env, arg, ts), k, ts - arg.offset - arg.range, ts - arg.offset);
      AscendingPoints(w) && forall p :: p in w <==> InArgument(env, arg, ts, k, p)
  {
    hide Meaning, Window;
    var lo, hi := ts - arg.offset - arg.range, ts - arg.offset;
    match arg
    case MatrixSelector(series, _, _) =>
      if k in series {
        WindowAscending(series[k], lo, hi);
        WindowMembers(series[k], lo, hi);
      }
    case Subquery(e, _, step, _) =>
      DirectWindow(env, e, k, lo, hi, SubStep(env, step));
  }

  /** The output for one series is the function of exactly these points in time order. */
  lemma CallOutputMeans(env: Env, e: Expr, ts: int, k: Metric, w: seq<Point>, sc: seq<real>)
    requires EnvOk(env) && WellFormed(e) && e.RangeCall?
    requires AscendingPoints(w) && forall p :: p in w <==> InArgument(env, e.arg, ts, k, p)
    requires |sc| == |e.scalars| && forall i :: 0 <= i < |sc| ==> Meaning(env, e.scalars[i], ts) == map[map[] := sc[i]]
    ensures var v := CallOutputs(env, e, ts);
      (if k in v then Some(v[k]) else None) == (if w == [] then None else e.rf(sc, w, ts))
  {
    hide Meaning, RangeData, Window, InArgument;
    ArgumentWindow(env, e.arg, ts, k);
    SameMembers(w, WindowOf(RangeData(env, e.arg, ts), k, ts - e.arg.offset - e.arg.range, ts - e.arg.offset));
    assert ScalarsOf(Meanings(env, e.scalars, ts)) == sc;
  }

  /** A call has these outputs under the label sets without the metric name. */
  lemma RangeCallMeans(env: Env, e: Expr, ts: int)
    requires EnvOk(env) && WellFormed(e) && e.RangeCall? && RangeOk(env, e, ts, ts, 1)
    ensures var v, r := CallOutputs(env, e, ts), Meaning(env, e, ts);
      && (forall k :: k in v ==> k - {"__name__"} in r && r[k - {"__name__"}] == v[k])
      && (forall k' :: k' in r ==> exists k :: k in v && k - {"__name__"} == k')
  {
    hide CallOutputs, Renamed, NameClash;
    assert InGrid(ts, ts, ts, 1);
    RenamedVector(CallOutputs(env, e, ts));
  }

  // ----- when a query fails -----

  /** Two label sets that differ in the metric name only. */
  predicate OnlyNamesDiffer(k: Metric, k': Metric) {
    k != k' && k - {"__name__"} == k' - {"__name__"}
  }

  /** Selectors never fail, and parentheses only with what they enclose. */
  lemma SelectorsNeverFail(env: Env, e: Expr, start: int, end: int, step: int)
    requires EnvOk(env) && WellFormed(e) && step > 0
    ensures e.VectorSelector? ==> RangeOk(env, e, start, end, step)
    ensures e.Paren? ==> (RangeOk(env, e, start, end, step) <==> RangeOk(env, e.e, start, end, step))
    ensures e.ScalarCall? ==> (!RangeOk(env, e, start, end, step) <==> exists i :: 0 <= i < |e.sargs| && !RangeOk(env, e.sargs[i], start, end, step))
  {
  }

  /** An operator or function of vectors fails with an argument, or where its output
      is an error or has a label set twice. */
  lemma StepCallFails(env: Env, e: Expr, start: int, end: int, step: int)
    requires EnvOk(env) && WellFormed(e) && step > 0 && e.StepCall?
    ensures !RangeOk(env, e, start, end, step) <==>
      || (exists i :: 0 <= i < |e.args| && !RangeOk(env, e.args[i], start, end, step))
      || (exists ts :: InGrid(ts, start, end, step) && StepFails(e.f(ts, Meanings(env, e.args, ts))))
  {
    hide Meanings;
    forall ts ensures StepFails(e.f(ts, Meanings(env, e.args, ts))) <==>
      !(var r := e.f(ts, Meanings(env, e.args, ts)); r.Ok? && Unique(r.value))
    {
    }
    hide StepFails;
  }

  ghost predicate StepFails(out: Result<seq<VectorSample>>) {
    out.Err? || exists i, j :: 0 <= i < j < |out.value| && out.value[i].metric == out.value[j].metric
  }

  /** A negation fails with its operand, or where two label sets of it only differ in the name. */
  lemma NegationFails(env: Env, e: Expr, start: int, end: int, step: int)
    requires EnvOk(env) && WellFormed(e) && step > 0 && e.Negate?
    ensures !RangeOk(env, e, start, end, step) <==>
      || !RangeOk(env, e.e, start, end, step)
      || exists ts, ts', k, k' :: InGrid(ts, start, end, step) && InGrid(ts', start, end, step)
           && k in Meaning(env, e.e, ts) && k' in Meaning(env, e.e, ts') && OnlyNamesDiffer(k, k')
  {
    hide Meaning, InGrid;
    if RangeOk(env, e.e, start, end, step) && !RangeOk(env, e, start, end, step) {
      var ts, ts', k, k' :| InGrid(ts, start, end, step) && InGrid(ts', start, end, step)
        && k in Meaning(env, e.e, ts) && k' in Meaning(env, e.e, ts') && NameClash(k, k');
      assert OnlyNamesDiffer(k, k');
    }
    assert forall k, k' :: OnlyNamesDiffer(k, k') ==> NameClash(k, k');
  }

  /** A call with a range argument fails with its argument or a scalar, or where two
      of its outputs only differ in the name. */
  lemma RangeCallFails(env: Env, e: Expr, start: int, end: int, step: int)
    requires EnvOk(env) && WellFormed(e) && step > 0 && e.RangeCall?
    ensures !RangeOk(env, e, start, end, step) <==>
      || ArgumentFails(env, e.arg, start, end)
      || (exists i :: 0 <= i < |e.scalars| && !RangeOk(env, e.scalars[i], start, end, step))
      || exists ts, ts', k, k' :: InGrid(ts, start, end, step) && InGrid(ts', start, end, step)
           && k in CallOutputs(env, e, ts) && k' in CallOutputs(env, e, ts') && OnlyNamesDiffer(k, k')
  {
    hide CallOutputs, InGrid, ArgumentFails, RangeArgOk;
    ArgumentOk(env, e.arg, start, end);
    if RangeArgOk(env, e.arg, start, end) && (forall i :: 0 <= i < |e.scalars| ==> RangeOk(env, e.scalars[i], start, end, step))
      && !RangeOk(env, e, start, end, step)
    {
      var ts, ts', k, k' :| InGrid(ts, start, end, step) && InGrid(ts', start, end, step)
        && k in CallOutputs(env, e, ts) && k' in CallOutputs(env, e, ts') && NameClash(k, k');
      assert OnlyNamesDiffer(k, k');
    }
    assert forall k, k' :: OnlyNamesDiffer(k, k') ==> NameClash(k, k');
  }

  lemma ArgumentOk(env: Env, arg: RangeArg, start: int, end: int)
    requires EnvOk(env) && ArgOk(arg)
    ensures RangeArgOk(env, arg, start, end) <==> !ArgumentFails(env, arg, start, end)
  {
  }

  /** A subquery is evaluated once, from the first multiple of its step in the window of the first step. */
  ghost predicate ArgumentFails(env: Env, arg: RangeArg, start: int, end: int)
    requires EnvOk(env) && ArgOk(arg)
  {
    match arg
    case MatrixSelector(_, _, _) => false
    case Subquery(e, range, step, offset) =>
      var st := if step != 0 then step else env.defaultInterval;
      !RangeOk(env, e, AlignUp(start - offset - range, st), end - offset, st)
  }
}
