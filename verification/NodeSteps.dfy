/** One expression node evaluated over all steps with one helper: although the
    helper's caches go from step to step, the result is that of `rangeEval` with a
    function of the step's vectors alone. */
module NodeSteps {
  import opened Common
  import opened Evaluator
  import opened Grid
  import opened Matrices
  import opened NodeHelper
  import opened NodeOrder
  import opened PromExpr
  import opened StepLoops
  import Quantile

  /** The operations that use the helper. Each has two arguments. */
  datatype Call =
    | Arithmetic(op: Op, matching: Matching, returnBool: bool)
    // with a scalar on the right, or on the left if swapped
    | WithScalar(op: Op, swap: bool, returnBool: bool)
    | And(matching: Matching)
    | Or(matching: Matching)
    | Unless(matching: Matching)
    | HistogramQuantile(parse: ParseBound, asFloat: Quantile.Result -> real)

  const NO_OP := Op((x: real, y: real) => (0.0, false), false, false)
  const BY_HISTOGRAM := Matching(OneToOne, false, {METRIC_NAME, BUCKET_LABEL}, [])

  function MatchingOf(c: Call): Matching {
    match c
    case Arithmetic(_, matching, _) => matching
    case And(matching) => matching
    case Or(matching) => matching
    case Unless(matching) => matching
    case WithScalar(_, _, _) => BY_HISTOGRAM
    case HistogramQuantile(_, _) => BY_HISTOGRAM
  }

  function OpOf(c: Call): Op {
    match c
    case Arithmetic(op, _, _) => op
    case WithScalar(op, _, _) => op
    case _ => NO_OP
  }

  /** Set operators, and only they, match many to many. */
  predicate CallOk(c: Call) {
    match c
    case Arithmetic(_, matching, _) => !matching.card.ManyToMany?
    case And(matching) => matching.card.ManyToMany?
    case Or(matching) => matching.card.ManyToMany?
    case Unless(matching) => matching.card.ManyToMany?
    case _ => true
  }

  /** The order in which the samples of an argument come at a step. */
  type Order = (int, nat, Vector) -> seq<VectorSample>

  ghost predicate Lists(order: Order) {
    forall ts, i, v :: Unique(order(ts, i, v)) && ToVector(order(ts, i, v)) == v
  }

  lemma EmptyListing()
    ensures Unique([]) && ToVector([]) == map[]
  {
  }

  lemma OneMoreListed(v: Vector, m: Metric, s: seq<VectorSample>)
    requires m in v && Unique(s) && ToVector(s) == v - {m}
    ensures Unique(s + [VectorSample(m, v[m])]) && ToVector(s + [VectorSample(m, v[m])]) == v
  {
    hide Unique, ToVector;
    AppendOne(s, VectorSample(m, v[m]));
  }

  lemma {:induction false} HasListing(v: Vector)
    ensures exists s :: Unique(s) && ToVector(s) == v
    decreases |v.Keys|
  {
    hide Unique, ToVector;
    EmptyListing();
    if v != map[] {
      var m :| m in v;
      var rest := v - {m};
      assert v.Keys == rest.Keys + {m};
      assert |rest.Keys| == |v.Keys| - 1;
      HasListing(rest);
      var s :| Unique(s) && ToVector(s) == rest;
      OneMoreListed(v, m, s);
    }
  }

  /** Some list of the samples of a vector. */
  ghost function Listed(v: Vector): (s: seq<VectorSample>)
    ensures Unique(s) && ToVector(s) == v
  {
    HasListing(v);
    var s :| Unique(s) && ToVector(s) == v;
    s
  }

  /** What an operation gives for its two arguments, without any cache. */
  ghost function Pure(c: Call, left: seq<VectorSample>, right: seq<VectorSample>, l: real, r: real): Result<seq<VectorSample>> {
    match c
    case Arithmetic(op, matching, returnBool) =>
      if matching.card.OneToMany? then Matched(right, left, op, matching, returnBool) else Matched(left, right, op, matching, returnBool)
    case WithScalar(op, swap, returnBool) =>
      Ok(if swap then ScalarOpSpec(right, l, op, true, returnBool) else ScalarOpSpec(left, r, op, false, returnBool))
    case And(matching) => Ok(Filtered(left, Signatures(right, matching), true, matching))
    case Or(matching) => Ok(left + Filtered(right, Signatures(left, matching), false, matching))
    case Unless(matching) => Ok(Filtered(left, Signatures(right, matching), false, matching))
    case HistogramQuantile(parse, asFloat) => Ok(Listed(QuantileVector(l, right, parse, asFloat)))
  }

  /** The function of the step's vectors that the node computes. */
  ghost function NodeFn(c: Call): StepFn {
    (ts: int, vs: seq<Vector>) =>
      if |vs| != 2 then Err
      else Pure(c, Listed(vs[0]), Listed(vs[1]), ScalarOf(vs[0]), ScalarOf(vs[1]))
  }

  /** Equal as outcomes of a step: both fail, or both give the same vector. */
  ghost predicate SameStep(a: Result<seq<VectorSample>>, b: Result<seq<VectorSample>>) {
    && ((a.Ok? && Unique(a.value)) <==> (b.Ok? && Unique(b.value)))
    && (a.Ok? && Unique(a.value) && b.Ok? ==> ToVector(a.value) == ToVector(b.value))
  }

  /** The order of the samples of the arguments does not matter. */
  lemma OrderIrrelevant(c: Call, left: seq<VectorSample>, right: seq<VectorSample>, left': seq<VectorSample>, right': seq<VectorSample>, l: real, r: real)
    requires Relisted(left, left') && Relisted(right, right')
    ensures SameStep(Pure(c, left, right, l, r), Pure(c, left', right', l, r))
  {
    hide Relisted, ScalarOpSpec, Filtered, Contributions, OneSideUnique, NoConflict, QuantileVector, Unique, ToVector;
    match c
    case Arithmetic(op, matching, returnBool) =>
      if matching.card.OneToMany? {
        ArithmeticOrder(right, left, right', left', op, matching, returnBool);
      } else {
        ArithmeticOrder(left, right, left', right', op, matching, returnBool);
      }
    case WithScalar(op, swap, returnBool) =>
      if swap {
        ScalarOpRelisted(right, right', l, op, true, returnBool);
        PermutationSame(ScalarOpSpec(right, l, op, true, returnBool), ScalarOpSpec(right', l, op, true, returnBool));
      } else {
        ScalarOpRelisted(left, left', r, op, false, returnBool);
        PermutationSame(ScalarOpSpec(left, r, op, false, returnBool), ScalarOpSpec(left', r, op, false, returnBool));
      }
    case And(matching) =>
      FilterOrder(left, right, left', right', true, matching);
    case Unless(matching) =>
      FilterOrder(left, right, left', right', false, matching);
    case Or(matching) =>
      FilteredRelisted(right, right', left, left', false, matching);
      RelistedPermutation(left, left');
      PermutationSame(left + Filtered(right, Signatures(left, matching), false, matching), left' + Filtered(right', Signatures(left', matching), false, matching));
    case HistogramQuantile(parse, asFloat) =>
      QuantilesRelisted(l, right, right', parse, asFloat);
  }

  lemma FilterOrder(left: seq<VectorSample>, right: seq<VectorSample>, left': seq<VectorSample>, right': seq<VectorSample>, present: bool, matching: Matching)
    requires Relisted(left, left') && Relisted(right, right')
    ensures SameStep(Ok(Filtered(left, Signatures(right, matching), present, matching)), Ok(Filtered(left', Signatures(right', matching), present, matching)))
  {
    hide Relisted, Filtered, Signatures, Unique, ToVector;
    FilteredRelisted(left, left', right, right', present, matching);
    PermutationSame(Filtered(left, Signatures(right, matching), present, matching), Filtered(left', Signatures(right', matching), present, matching));
  }

  ghost function Matched(lhs: seq<VectorSample>, rhs: seq<VectorSample>, op: Op, matching: Matching, returnBool: bool): Result<seq<VectorSample>> {
    if OneSideUnique(rhs, matching) && NoConflict(lhs, rhs, op, matching, returnBool)
    then Ok(Contributions(lhs, rhs, op, matching, returnBool)) else Err
  }

  lemma ArithmeticOrder(lhs: seq<VectorSample>, rhs: seq<VectorSample>, lhs': seq<VectorSample>, rhs': seq<VectorSample>, op: Op, matching: Matching, returnBool: bool)
    requires Relisted(lhs, lhs') && Relisted(rhs, rhs')
    ensures SameStep(Matched(lhs, rhs, op, matching, returnBool), Matched(lhs', rhs', op, matching, returnBool))
  {
    hide Relisted, Contributions, OneSideUnique, NoConflict, Unique, ToVector;
    RelistedSymmetric(lhs, lhs');
    RelistedSymmetric(rhs, rhs');
    if OneSideUnique(rhs, matching) {
      OneSideRelisted(rhs, rhs', matching);
      if NoConflict(lhs, rhs, op, matching, returnBool) {
        ConflictRelisted(lhs, lhs', rhs, rhs', op, matching, returnBool);
      } else if NoConflict(lhs', rhs', op, matching, returnBool) {
        ConflictRelisted(lhs', lhs, rhs', rhs, op, matching, returnBool);
      }
      ContributionsRelisted(lhs, lhs', rhs, rhs', op, matching, returnBool);
      PermutationSame(Contributions(lhs, rhs, op, matching, returnBool), Contributions(lhs', rhs', op, matching, returnBool));
    } else if OneSideUnique(rhs', matching) {
      OneSideRelisted(rhs', rhs, matching);
    }
  }

  /** One step, with a helper that has already served any number of others. */
  method Step(enh: EvalNodeHelper, c: Call, left: seq<VectorSample>, right: seq<VectorSample>, l: real, r: real)
      returns (out: Result<seq<VectorSample>>)
    requires CallOk(c) && enh.Valid() && enh.op == OpOf(c) && enh.matching == MatchingOf(c)
    modifies enh
    ensures enh.Valid() && SameStep(out, Pure(c, left, right, l, r))
  {
    hide Contributions, NoConflict, OneSideUnique, Filtered, Signatures, ScalarOpSpec, QuantileVector, Unique, ToVector, Joined;
    match c
    case Arithmetic(op, matching, returnBool) =>
      out := enh.VectorBinop(left, right, returnBool);
    case WithScalar(op, swap, returnBool) =>
      var vec := enh.VectorScalarBinop(if swap then right else left, if swap then l else r, swap, returnBool);
      out := Ok(vec);
    case And(matching) =>
      var vec := enh.VectorAnd(left, right);
      out := Ok(vec);
    case Or(matching) =>
      var vec := enh.VectorOr(left, right);
      out := Ok(vec);
    case Unless(matching) =>
      var vec := enh.VectorUnless(left, right);
      out := Ok(vec);
    case HistogramQuantile(parse, asFloat) =>
      var vec := enh.HistogramQuantile(l, right, parse, asFloat);
      out := Ok(vec);
  }

  lemma OrderInStep(c: Call, order: Order, ts: int, vs: seq<Vector>)
    requires Lists(order) && |vs| == 2
    ensures SameStep(Pure(c, order(ts, 0, vs[0]), order(ts, 1, vs[1]), ScalarOf(vs[0]), ScalarOf(vs[1])), NodeFn(c)(ts, vs))
  {
    hide Pure, SameStep, Unique, ToVector;
    OrderIrrelevant(c, order(ts, 0, vs[0]), order(ts, 1, vs[1]), Listed(vs[0]), Listed(vs[1]), ScalarOf(vs[0]), ScalarOf(vs[1]));
  }

  /** `rangeEval` as it runs: one helper serves all steps. The outcome is the one
      `RangeEval` has with the pure function. */
  method EvalNode(c: Call, order: Order, mats: seq<Matrix>, start: int, end: int, step: int) returns (r: Result<Matrix>)
    requires CallOk(c) && Lists(order) && |mats| == 2
    requires step > 0 && forall i :: 0 <= i < |mats| ==> OnGrid(mats[i], start, end, step)
    ensures r.Ok? <==> forall ts :: InGrid(ts, start, end, step) ==> StepOk(NodeFn(c), mats, ts)
    ensures r.Ok? ==> OnGrid(r.value, start, end, step)
    ensures r.Ok? ==> forall ts :: InGrid(ts, start, end, step) ==> Slice(r.value, ts) == ToVector(NodeFn(c)(ts, Slices(mats, ts)).value)
  {
    hide Pure, Unique, Lists, NodeFn, ScalarOf, DoneBefore, OnGrid, From, Slice, Slices, ToVector, OpOf, MatchingOf;
    ghost var f := NodeFn(c);
    var enh := new EvalNodeHelper(OpOf(c), MatchingOf(c));
    var cur := mats;
    var out: Matrix := map[];
    var ts := start;
    StartUnconsumed(mats, start, end, step);
    NothingDone(f, mats, start, end, step);
    GridStep(start, start, end, step);
    while ts <= end
      invariant start <= ts && (ts - start) % step == 0
      invariant |cur| == |mats| && forall i :: 0 <= i < |mats| ==> cur[i] == From(mats[i], ts)
      invariant enh.Valid() && fresh(enh)
      invariant DoneBefore(f, mats, out, ts, start, end, step)
      decreases end - ts
    {
      assert InGrid(ts, start, end, step);
      var vecs, rests := GatherAll(cur, ts, mats, start, end, step);
      cur := rests;
      var result := Step(enh, c, order(ts, 0, vecs[0]), order(ts, 1, vecs[1]), ScalarOf(vecs[0]), ScalarOf(vecs[1]));
      OrderInStep(c, order, ts, vecs);
      if result.Err? || !Unique(result.value) {
        assert !StepOk(f, mats, ts);
        return Err;
      }
      out := AppendStep(f, mats, out, result.value, ts, start, end, step);
      GridStep(ts, start, end, step);
      ts := ts + step;
    }
    AllDone(f, mats, out, ts, start, end, step);
    forall t | InGrid(t, start, end, step) ensures StepOk(f, mats, t) && Slice(out, t) == ToVector(f(t, Slices(mats, t)).value) {
      assert DoneAt(f, mats, out, t);
    }
    r := Ok(out);
  }

  /** The whole node, arguments included: evaluated with one helper it represents
      the expression whose step function is the pure one. */
  method EvalCall(env: Env, c: Call, order: Order, args: seq<Expr>, start: int, end: int, step: int) returns (r: Result<Matrix>)
    requires CallOk(c) && Lists(order) && |args| == 2
    requires EnvOk(env) && step > 0 && forall i :: 0 <= i < |args| ==> WellFormed(args[i])
    ensures r.Ok? <==> RangeOk(env, StepCall(NodeFn(c), args), start, end, step)
    ensures r.Ok? ==> Represents(env, StepCall(NodeFn(c), args), r.value, start, end, step)
  {
    hide NodeFn, Lists, OnGrid, Slice, Slices, ToVector, Unique;
    var ok, ms := EvalAll(env, args, start, end, step);
    if !ok {
      return Err;
    }
    forall ts | InGrid(ts, start, end, step) ensures Slices(ms, ts) == Meanings(env, args, ts) {
      SlicesAreMeanings(env, args, ms, start, end, step, ts);
    }
    r := EvalNode(c, order, ms, start, end, step);
  }

  /** What each operation gives, said of the samples of its operands. */
  ghost predicate Gives(c: Call, left: seq<VectorSample>, right: seq<VectorSample>, l: real, r: real, x: VectorSample) {
    match c
    case Arithmetic(op, matching, returnBool) => Joined(x, left, right, op, matching, returnBool)
    case WithScalar(op, swap, returnBool) =>
      if swap then exists i :: 0 <= i < |right| && PairsWithScalar(right[i], l, x, op, true, returnBool)
      else exists i :: 0 <= i < |left| && PairsWithScalar(left[i], r, x, op, false, returnBool)
    case And(matching) => x in left && HasMatch(x.metric, right, matching)
    case Or(matching) => x in left || (x in right && !HasMatch(x.metric, left, matching))
    case Unless(matching) => x in left && !HasMatch(x.metric, right, matching)
    case HistogramQuantile(parse, asFloat) =>
      && BucketsFor(right, x.metric, parse) != []
      && x.v == asFloat(Quantile.QuantileOfBuckets(l, BucketsFor(right, x.metric, parse)))
  }

  lemma CallMeans(c: Call, left: seq<VectorSample>, right: seq<VectorSample>, l: real, r: real, x: VectorSample)
    requires Pure(c, left, right, l, r).Ok?
    ensures x in Pure(c, left, right, l, r).value <==> Gives(c, left, right, l, r, x)
  {
    hide Joined, MatchJoined, PairsWithScalar, HasMatch, Contributions, Filtered, ScalarOpSpec, BucketsFor, Quantile.QuantileOfBuckets, ToVector,
         OneSideUnique, NoConflict, Histograms;
    match c
    case Arithmetic(op, matching, returnBool) =>
      if matching.card.OneToMany? {
        ContributionsAreJoin(right, left, op, matching, returnBool, x);
        MatchJoinedIsJoined(x, right, left, op, matching, returnBool);
      } else {
        ContributionsAreJoin(left, right, op, matching, returnBool, x);
        MatchJoinedIsJoined(x, left, right, op, matching, returnBool);
      }
    case WithScalar(op, swap, returnBool) =>
      if swap {
        ScalarOpExactly(right, l, op, true, returnBool, x);
      } else {
        ScalarOpExactly(left, r, op, false, returnBool, x);
      }
    case And(matching) => FilteredExactly(left, right, true, matching, x);
    case Or(matching) => FilteredExactly(right, left, false, matching, x);
    case Unless(matching) => FilteredExactly(left, right, false, matching, x);
    case HistogramQuantile(parse, asFloat) =>
      HistogramsHaveBuckets(right, parse, x.metric);
      InVector(Listed(QuantileVector(l, right, parse, asFloat)), x);
  }
}
