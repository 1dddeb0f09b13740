/** A fragment of PromQL and what an expression means at one instant. */
module PromExpr {
  import opened Common
  import opened Samples
  import opened Grid

  import opened MatrixWindow

  /** A label set. Vectors, matrices and stored series are keyed by it. */
  type Metric = map<string, string>

  const NO_LABELS: Metric := map[]

  function DropName(m: Metric): Metric {
    m - {METRIC_NAME}
  }

  type Vector = map<Metric, real>
  type Matrix = map<Metric, seq<Point>>
  type Stored = map<Metric, seq<Sample>>

  datatype VectorSample = VectorSample(metric: Metric, v: real)
  /** What a step of `rangeEval` calls: the output for the input vectors at a
      time, possibly an evaluation error, possibly with equal label sets. */
  type StepFn = (int, seq<Vector>) -> Result<seq<VectorSample>>
  type ScalarFn = (int, seq<Vector>) -> real
  /** A function of a range vector, with its scalar arguments. */
  type RangeCallFn = (seq<real>, seq<Point>, int) -> Option<real>

  datatype RangeArg =
    | MatrixSelector(series: Stored, range: int, offset: int)
    | Subquery(e: Expr, range: int, step: int, offset: int)

  datatype Expr =
    // binary operators, aggregations and functions of instant vectors
    | StepCall(f: StepFn, args: seq<Expr>)
    // number literals, time(), scalar() and operators between scalars
    | ScalarCall(sf: ScalarFn, sargs: seq<Expr>)
    | VectorSelector(series: Stored, offset: int)
    | RangeCall(rf: RangeCallFn, arg: RangeArg, scalars: seq<Expr>)
    | Negate(e: Expr)
    | Paren(e: Expr)

  /** The engine's lookback and default subquery interval. */
  datatype Env = Env(lookback: int, defaultInterval: int)

  predicate IsScalar(e: Expr) {
    match e
    case ScalarCall(_, _) => true
    case Paren(e') => IsScalar(e')
    case _ => false
  }

  ghost predicate StoredOk(s: Stored) {
    forall k :: k in s ==> Ascending(s[k])
  }

  /** Well-typed expressions over ascending series. */
  ghost predicate WellFormed(e: Expr) {
    match e
    case StepCall(_, args) => forall i :: 0 <= i < |args| ==> WellFormed(args[i])
    case ScalarCall(_, args) => forall i :: 0 <= i < |args| ==> WellFormed(args[i])
    case VectorSelector(series, _) => StoredOk(series)
    case RangeCall(_, arg, scalars) => ArgOk(arg) && forall i :: 0 <= i < |scalars| ==> IsScalar(scalars[i]) && WellFormed(scalars[i])
    case Negate(e') => WellFormed(e')
    case Paren(e') => WellFormed(e')
  }

  ghost predicate ArgOk(arg: RangeArg) {
    match arg
    case MatrixSelector(series, range, _) => StoredOk(series) && range >= 0
    case Subquery(e, range, step, _) => WellFormed(e) && range >= 0 && step >= 0
  }

  function SubStep(env: Env, step: int): int {
    if step != 0 then step else env.defaultInterval
  }

  /** The vector of a list of samples. */
  function ToVector(s: seq<VectorSample>): Vector {
    if s == [] then map[]
    else ToVector(s[..|s| - 1])[s[|s| - 1].metric := s[|s| - 1].v]
  }

  predicate Unique(s: seq<VectorSample>) {
    forall i, j :: 0 <= i < j < |s| ==> s[i].metric != s[j].metric
  }

  /** The most recent sample in [t - lookback, t], unless it is a stale marker. */
  function Latest(s: seq<Sample>, t: int, lookback: int): Option<real> {
    if s == [] then None
    else
      var x := s[|s| - 1];
      if x.t > t then Latest(s[..|s| - 1], t, lookback)
      else if x.t < t - lookback || x.v.StaleNaN? then None
      else Some(x.v.r)
  }

  function LatestOf(data: Stored, k: Metric, t: int, lookback: int): Option<real> {
    if k in data then Latest(data[k], t, lookback) else None
  }

  ghost function Selected(data: Stored, t: int, lookback: int): Vector {
    map k | k in data && LatestOf(data, k, t, lookback).Some? :: LatestOf(data, k, t, lookback).value
  }

  predicate NameClash(k: Metric, k': Metric) {
    k != k' && DropName(k) == DropName(k')
  }

  /** A vector with the metric name dropped from every label set. */
  ghost function Renamed(v: Vector): Vector {
    map k' | k' in Stripped(v) :: v[Origin(v, k')]
  }

  function Stripped(v: Vector): set<Metric> {
    set k | k in v :: DropName(k)
  }

  /** A label set that becomes the given one without the metric name. */
  ghost function Origin(v: Vector, k': Metric): (k: Metric)
    requires k' in Stripped(v)
    ensures k in v && DropName(k) == k'
  {
    var k :| k in v && DropName(k) == k';
    k
  }

  /** The value of a range function on one series at `ts`. */
  function OutputAt(f: RangeCallFn, sc: seq<real>, s: seq<Sample>, ts: int, range: int, offset: int): Option<real> {
    var w := Window(s, ts - offset - range, ts - offset);
    if w == [] then None else f(sc, w, ts)
  }

  ghost function Outputs(f: RangeCallFn, sc: seq<real>, data: Stored, ts: int, range: int, offset: int): Vector {
    map k | k in data && OutputAt(f, sc, data[k], ts, range, offset).Some? :: OutputAt(f, sc, data[k], ts, range, offset).value
  }

  function ScalarOf(v: Vector): real {
    if NO_LABELS in v then v[NO_LABELS] else 0.0
  }

  function ScalarsOf(vs: seq<Vector>): (r: seq<real>)
    ensures |r| == |vs|
  {
    seq(|vs|, i requires 0 <= i < |vs| => ScalarOf(vs[i]))
  }

  /** What an expression means at `ts`, each instant on its own. */
  ghost function Meaning(env: Env, e: Expr, ts: int): Vector
    requires env.defaultInterval > 0 && WellFormed(e)
    decreases e, 1
  {
    match e
    case StepCall(f, args) =>
      (match f(ts, Meanings(env, args, ts))
       case Ok(out) => ToVector(out)
       case Err => map[])
    case ScalarCall(f, args) => map[NO_LABELS := f(ts, Meanings(env, args, ts))]
    case VectorSelector(series, offset) => Selected(series, ts - offset, env.lookback)
    case RangeCall(f, arg, scalars) => Renamed(CallOutputs(env, e, ts))
    case Negate(e') =>
      var v := Meaning(env, e', ts);
      Renamed(map k | k in v :: -v[k])
    case Paren(e') => Meaning(env, e', ts)
  }

  ghost function Meanings(env: Env, es: seq<Expr>, ts: int): (r: seq<Vector>)
    requires env.defaultInterval > 0 && forall i :: 0 <= i < |es| ==> WellFormed(es[i])
    ensures |r| == |es|
    ensures forall i :: 0 <= i < |es| ==> r[i] == Meaning(env, es[i], ts)
    decreases es, 1
  {
    if es == [] then [] else [Meaning(env, es[0], ts)] + Meanings(env, es[1..], ts)
  }

  /** The outputs of a range call at `ts`, by the label set of the input series. */
  ghost function CallOutputs(env: Env, e: Expr, ts: int): Vector
    requires env.defaultInterval > 0 && WellFormed(e) && e.RangeCall?
    decreases e, 0
  {
    Outputs(e.rf, ScalarsOf(Meanings(env, e.scalars, ts)), RangeData(env, e.arg, ts), ts, e.arg.range, e.arg.offset)
  }

  /** The series a range argument ranges over at `ts`: those stored, or what the
      inner expression means at the subquery's timestamps. */
  ghost function RangeData(env: Env, arg: RangeArg, ts: int): Stored
    requires env.defaultInterval > 0 && ArgOk(arg)
    decreases arg, 1
  {
    match arg
    case MatrixSelector(series, _, _) => series
    case Subquery(e, range, step, offset) =>
      var st := SubStep(env, step);
      SubData(env, e, AlignUp(ts - offset - range, st), ts - offset, st)
  }

  ghost function SubData(env: Env, e: Expr, g: int, hi: int, step: int): Stored
    requires env.defaultInterval > 0 && WellFormed(e) && step > 0
    decreases e, 3
  {
    map k | k in SubKeys(env, e, g, hi, step) :: SubSamples(env, e, k, g, hi, step)
  }

  ghost function SubKeys(env: Env, e: Expr, g: int, hi: int, step: int): set<Metric>
    requires env.defaultInterval > 0 && WellFormed(e) && step > 0
    decreases e, 2, hi - g
  {
    if g > hi then {} else Meaning(env, e, g).Keys + SubKeys(env, e, g + step, hi, step)
  }

  ghost function SubSamples(env: Env, e: Expr, k: Metric, g: int, hi: int, step: int): seq<Sample>
    requires env.defaultInterval > 0 && WellFormed(e) && step > 0
    decreases e, 2, hi - g
  {
    if g > hi then []
    else
      var v := Meaning(env, e, g);
      (if k in v then [Sample(g, Num(v[k]))] else []) + SubSamples(env, e, k, g + step, hi, step)
  }

  /** When a range query raises no error: no step function fails or yields the
      same label set twice, and no two output series of a range call or a
      negation lose their difference with the metric name, even at different steps. */
  ghost predicate RangeOk(env: Env, e: Expr, start: int, end: int, step: int)
    requires env.defaultInterval > 0 && WellFormed(e) && step > 0
    decreases e, 0
  {
    match e
    case StepCall(f, args) =>
      && (forall i :: 0 <= i < |args| ==> RangeOk(env, args[i], start, end, step))
      && (forall ts :: InGrid(ts, start, end, step) ==>
            var r := f(ts, Meanings(env, args, ts)); r.Ok? && Unique(r.value))
    case ScalarCall(f, args) => forall i :: 0 <= i < |args| ==> RangeOk(env, args[i], start, end, step)
    case VectorSelector(_, _) => true
    case RangeCall(f, arg, scalars) =>
      && RangeArgOk(env, arg, start, end)
      && (forall i :: 0 <= i < |scalars| ==> RangeOk(env, scalars[i], start, end, step))
      && (forall ts, ts', k, k' :: InGrid(ts, start, end, step) && InGrid(ts', start, end, step)
            && k in CallOutputs(env, e, ts) && k' in CallOutputs(env, e, ts')
            ==> !NameClash(k, k'))
    case Negate(e') =>
      && RangeOk(env, e', start, end, step)
      && (forall ts, ts', k, k' :: InGrid(ts, start, end, step) && InGrid(ts', start, end, step)
            && k in Meaning(env, e', ts) && k' in Meaning(env, e', ts')
            ==> !NameClash(k, k'))
    case Paren(e') => RangeOk(env, e', start, end, step)
  }

  ghost predicate RangeArgOk(env: Env, arg: RangeArg, start: int, end: int)
    requires env.defaultInterval > 0 && ArgOk(arg)
    decreases arg, 0
  {
    match arg
    case MatrixSelector(_, _, _) => true
    case Subquery(e, range, step, offset) =>
      var st := SubStep(env, step);
      RangeOk(env, e, AlignUp(start - offset - range, st), end - offset, st)
  }
}
