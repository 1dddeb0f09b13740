/** The time ranges fetched for a query: the range of the whole query, and the
    hints passed for each selector. */
module TimeRange {
  import opened Common
  import opened Samples
  import opened Grid
  import opened PromExpr

  import opened Evaluator

  function Max(a: int, b: int): int {
    if a < b then b else a
  }

  /** How far before the start of the query its selectors reach, `subq` being
      the ranges and offsets of the subqueries around them. */
  function MaxOffset(env: Env, e: Expr, subq: int): int
    decreases e, 1
  {
    match e
    case StepCall(_, args) => MaxOffsets(env, args, subq)
    case ScalarCall(_, args) => MaxOffsets(env, args, subq)
    case VectorSelector(_, offset) => Max(Max(0, env.lookback + subq), offset + env.lookback + subq)
    case RangeCall(_, arg, scalars) => Max(MaxArgOffset(env, arg, subq), MaxOffsets(env, scalars, subq))
    case Negate(e') => MaxOffset(env, e', subq)
    case Paren(e') => MaxOffset(env, e', subq)
  }

  function MaxOffsets(env: Env, es: seq<Expr>, subq: int): (r: int)
    ensures forall i :: 0 <= i < |es| ==> MaxOffset(env, es[i], subq) <= r
    decreases es, 0
  {
    if es == [] then 0 else Max(MaxOffset(env, es[0], subq), MaxOffsets(env, es[1..], subq))
  }

  function MaxArgOffset(env: Env, arg: RangeArg, subq: int): int
    decreases arg, 0
  {
    match arg
    // the vector selector inside a matrix selector is not visited on its own
    case MatrixSelector(_, range, offset) => Max(Max(0, range + subq), offset + range + subq)
    case Subquery(e, range, _, offset) => MaxOffset(env, e, subq + range + offset)
  }

  function FindMinTime(env: Env, e: Expr, start: int): int {
    start - MaxOffset(env, e, 0)
  }

  /** The hinted range of a selector that looks back `reach`. */
  function HintStart(start: int, subq: int, reach: int, offset: int): int {
    start - subq - reach - (if offset > 0 then offset else 0)
  }

  function HintEnd(end: int, offset: int): int {
    end - (if offset > 0 then offset else 0)
  }

  ghost predicate OffsetsOk(e: Expr)
    decreases e
  {
    match e
    case StepCall(_, args) => forall i :: 0 <= i < |args| ==> OffsetsOk(args[i])
    case ScalarCall(_, args) => forall i :: 0 <= i < |args| ==> OffsetsOk(args[i])
    case VectorSelector(_, offset) => offset >= 0
    case RangeCall(_, arg, scalars) => ArgOffsetsOk(arg) && forall i :: 0 <= i < |scalars| ==> OffsetsOk(scalars[i])
    case Negate(e') => OffsetsOk(e')
    case Paren(e') => OffsetsOk(e')
  }

  ghost predicate ArgOffsetsOk(arg: RangeArg)
    decreases arg
  {
    match arg
    case MatrixSelector(_, range, offset) => range >= 0 && offset >= 0
    case Subquery(e, range, _, offset) => OffsetsOk(e) && range >= 0 && offset >= 0
  }

  /** Every selector's hinted range lies within [lo, hi]. */
  ghost predicate HintsWithin(env: Env, e: Expr, start: int, end: int, subq: int, lo: int, hi: int)
    decreases e
  {
    match e
    case StepCall(_, args) => forall i :: 0 <= i < |args| ==> HintsWithin(env, args[i], start, end, subq, lo, hi)
    case ScalarCall(_, args) => forall i :: 0 <= i < |args| ==> HintsWithin(env, args[i], start, end, subq, lo, hi)
    case VectorSelector(_, offset) => lo <= HintStart(start, subq, env.lookback, offset) && HintEnd(end, offset) <= hi
    case RangeCall(_, arg, scalars) =>
      && ArgHintsWithin(env, arg, start, end, subq, lo, hi)
      && forall i :: 0 <= i < |scalars| ==> HintsWithin(env, scalars[i], start, end, subq, lo, hi)
    case Negate(e') => HintsWithin(env, e', start, end, subq, lo, hi)
    case Paren(e') => HintsWithin(env, e', start, end, subq, lo, hi)
  }

  ghost predicate ArgHintsWithin(env: Env, arg: RangeArg, start: int, end: int, subq: int, lo: int, hi: int)
    decreases arg
  {
    match arg
    case MatrixSelector(_, range, offset) => lo <= HintStart(start, subq, range, offset) && HintEnd(end, offset) <= hi
    case Subquery(e, range, _, offset) => HintsWithin(env, e, start, end, subq + range + offset, lo, hi)
  }

  /** The range fetched for the query covers the hinted range of every selector, however deeply nested. */
  lemma {:induction false} FetchCoversHints(env: Env, e: Expr, start: int, end: int, subq: int)
    requires env.lookback >= 0 && subq >= 0 && OffsetsOk(e)
    ensures forall lo :: lo <= start - MaxOffset(env, e, subq) ==> HintsWithin(env, e, start, end, subq, lo, end)
    decreases e
  {
    match e
    case StepCall(_, args) =>
      forall i | 0 <= i < |args| ensures forall lo :: lo <= start - MaxOffset(env, args[i], subq) ==> HintsWithin(env, args[i], start, end, subq, lo, end) {
        FetchCoversHints(env, args[i], start, end, subq);
      }
    case ScalarCall(_, args) =>
      forall i | 0 <= i < |args| ensures forall lo :: lo <= start - MaxOffset(env, args[i], subq) ==> HintsWithin(env, args[i], start, end, subq, lo, end) {
        FetchCoversHints(env, args[i], start, end, subq);
      }
    case VectorSelector(_, offset) =>
    case RangeCall(_, arg, scalars) =>
      forall i | 0 <= i < |scalars| ensures forall lo :: lo <= start - MaxOffset(env, scalars[i], subq) ==> HintsWithin(env, scalars[i], start, end, subq, lo, end) {
        FetchCoversHints(env, scalars[i], start, end, subq);
      }
      FetchCoversArgHints(env, arg, start, end, subq);
    case Negate(e') => FetchCoversHints(env, e', start, end, subq);
    case Paren(e') => FetchCoversHints(env, e', start, end, subq);
  }

  lemma {:induction false} FetchCoversArgHints(env: Env, arg: RangeArg, start: int, end: int, subq: int)
    requires env.lookback >= 0 && subq >= 0 && ArgOffsetsOk(arg)
    ensures forall lo :: lo <= start - MaxArgOffset(env, arg, subq) ==> ArgHintsWithin(env, arg, start, end, subq, lo, end)
    decreases arg
  {
    match arg
    case MatrixSelector(_, _, _) =>
    case Subquery(e, range, _, offset) => FetchCoversHints(env, e, start, end, subq + range + offset);
  }

  /** It covers them tightly: a range that starts any later misses one of them. */
  lemma {:induction false} FetchIsTight(env: Env, e: Expr, start: int, end: int, subq: int, lo: int)
    requires env.lookback >= 0 && subq >= 0 && OffsetsOk(e) && lo <= start
    ensures HintsWithin(env, e, start, end, subq, lo, end) ==> lo <= start - MaxOffset(env, e, subq)
    decreases e, 1
  {
    hide HintsWithin;
    match e
    case StepCall(_, args) =>
      HintsOfAll(env, e, start, end, subq, lo);
      AllTight(env, args, start, end, subq, lo);
    case ScalarCall(_, args) =>
      HintsOfAll(env, e, start, end, subq, lo);
      AllTight(env, args, start, end, subq, lo);
    case VectorSelector(_, offset) => HintsOfAll(env, e, start, end, subq, lo);
    case RangeCall(_, arg, scalars) =>
      HintsOfAll(env, e, start, end, subq, lo);
      AllTight(env, scalars, start, end, subq, lo);
      ArgTight(env, arg, start, end, subq, lo);
    case Negate(e') =>
      HintsOfAll(env, e, start, end, subq, lo);
      FetchIsTight(env, e', start, end, subq, lo);
    case Paren(e') =>
      HintsOfAll(env, e, start, end, subq, lo);
      FetchIsTight(env, e', start, end, subq, lo);
  }

  lemma HintsOfAll(env: Env, e: Expr, start: int, end: int, subq: int, lo: int)
    ensures HintsWithin(env, e, start, end, subq, lo, end) <==>
      match e
      case StepCall(_, args) => forall i :: 0 <= i < |args| ==> HintsWithin(env, args[i], start, end, subq, lo, end)
      case ScalarCall(_, sargs) => forall i :: 0 <= i < |sargs| ==> HintsWithin(env, sargs[i], start, end, subq, lo, end)
      case VectorSelector(_, offset) => lo <= HintStart(start, subq, env.lookback, offset) && HintEnd(end, offset) <= end
      case RangeCall(_, arg, scalars) =>
        && ArgHintsWithin(env, arg, start, end, subq, lo, end)
        && forall i :: 0 <= i < |scalars| ==> HintsWithin(env, scalars[i], start, end, subq, lo, end)
      case Negate(e') => HintsWithin(env, e', start, end, subq, lo, end)
      case Paren(e') => HintsWithin(env, e', start, end, subq, lo, end)
  {
  }

  lemma {:induction false} AllTight(env: Env, es: seq<Expr>, start: int, end: int, subq: int, lo: int)
    requires env.lookback >= 0 && subq >= 0 && lo <= start && forall i :: 0 <= i < |es| ==> OffsetsOk(es[i])
    ensures (forall i :: 0 <= i < |es| ==> HintsWithin(env, es[i], start, end, subq, lo, end)) ==> lo <= start - MaxOffsets(env, es, subq)
    decreases es, 0
  {
    hide HintsWithin, MaxOffset, OffsetsOk;
    if es != [] {
      FetchIsTight(env, es[0], start, end, subq, lo);
      AllTight(env, es[1..], start, end, subq, lo);
      assert forall i :: 0 <= i < |es[1..]| ==> es[1..][i] == es[i + 1];
    }
  }

  lemma {:induction false} ArgTight(env: Env, arg: RangeArg, start: int, end: int, subq: int, lo: int)
    requires env.lookback >= 0 && subq >= 0 && ArgOffsetsOk(arg) && lo <= start
    ensures ArgHintsWithin(env, arg, start, end, subq, lo, end) ==> lo <= start - MaxArgOffset(env, arg, subq)
    decreases arg, 0
  {
    match arg
    case MatrixSelector(_, _, _) =>
    case Subquery(e, range, _, offset) => FetchIsTight(env, e, start, end, subq + range + offset, lo);
  }

  // ----- what is fetched decides the result -----

  function SamplesOf(data: Stored, k: Metric, lo: int, hi: int): seq<Sample> {
    if k in data then InRange(data[k], lo, hi) else []
  }

  /** Two selections with the same samples in [lo, hi]; series without any may be missing from either. */
  ghost predicate SameIn(a: Stored, b: Stored, lo: int, hi: int) {
    forall k :: SamplesOf(a, k, lo, hi) == SamplesOf(b, k, lo, hi)
  }

  /** The same expression over other data that agrees within every selector's hinted range. */
  ghost predicate SameFetched(env: Env, e: Expr, e': Expr, start: int, end: int, subq: int)
    decreases e
  {
    match (e, e')
    case (StepCall(f, args), StepCall(f', args')) =>
      f == f' && |args| == |args'| && forall i :: 0 <= i < |args| ==> SameFetched(env, args[i], args'[i], start, end, subq)
    case (ScalarCall(f, args), ScalarCall(f', args')) =>
      f == f' && |args| == |args'| && forall i :: 0 <= i < |args| ==> SameFetched(env, args[i], args'[i], start, end, subq)
    case (VectorSelector(s, offset), VectorSelector(s', offset')) =>
      offset == offset' && SameIn(s, s', HintStart(start, subq, env.lookback, offset), HintEnd(end, offset))
    case (RangeCall(f, arg, scalars), RangeCall(f', arg', scalars')) =>
      && f == f' && SameArgFetched(env, arg, arg', start, end, subq)
      && |scalars| == |scalars'| && forall i :: 0 <= i < |scalars| ==> SameFetched(env, scalars[i], scalars'[i], start, end, subq)
    case (Negate(x), Negate(x')) => SameFetched(env, x, x', start, end, subq)
    case (Paren(x), Paren(x')) => SameFetched(env, x, x', start, end, subq)
    case _ => false
  }

  ghost predicate SameArgFetched(env: Env, arg: RangeArg, arg': RangeArg, start: int, end: int, subq: int)
    decreases arg
  {
    match (arg, arg')
    case (MatrixSelector(s, range, offset), MatrixSelector(s', range', offset')) =>
      range == range' && offset == offset' && SameIn(s, s', HintStart(start, subq, range, offset), HintEnd(end, offset))
    case (Subquery(e, range, step, offset), Subquery(e', range', step', offset')) =>
      range == range' && step == step' && offset == offset' && SameFetched(env, e, e', start, end, subq + range + offset)
    case _ => false
  }

  lemma {:induction false} InRangeWindow(s: seq<Sample>, lo: int, hi: int, a: int, b: int)
    requires lo <= a && b <= hi
    ensures Window(s, a, b) == Window(InRange(s, lo, hi), a, b)
  {
    if s != [] {
      InRangeWindow(s[1..], lo, hi, a, b);
      if lo <= s[0].t <= hi {
        assert InRange(s, lo, hi)[1..] == InRange(s[1..], lo, hi);
      } else {
        assert InRange(s, lo, hi) == InRange(s[1..], lo, hi);
      }
    }
  }

  lemma {:induction false} InRangeSnoc(s: seq<Sample>, x: Sample, lo: int, hi: int)
    ensures InRange(s + [x], lo, hi) == InRange(s, lo, hi) + (if lo <= x.t <= hi then [x] else [])
  {
    if s == [] {
      assert [x][1..] == [];
    } else {
      assert (s + [x])[1..] == s[1..] + [x];
      InRangeSnoc(s[1..], x, lo, hi);
    }
  }

  lemma LatestTooOld(s: seq<Sample>, t: int, lookback: int)
    requires lookback >= 0 && forall x :: x in s ==> x.t < t - lookback
    ensures Latest(s, t, lookback) == None
  {
    if s != [] {
      assert s[|s| - 1] in s;
    }
  }

  lemma {:induction false} InRangeLatest(s: seq<Sample>, lo: int, hi: int, t: int, lookback: int)
    requires Ascending(s) && lookback >= 0 && lo <= t - lookback && t <= hi
    ensures Latest(s, t, lookback) == Latest(InRange(s, lo, hi), t, lookback)
  {
    if s != [] {
      var init, x := s[..|s| - 1], s[|s| - 1];
      assert s == init + [x];
      InRangeSnoc(init, x, lo, hi);
      var r, ri := InRange(s, lo, hi), InRange(init, lo, hi);
      if x.t < t - lookback {
        assert forall y :: y in s ==> y.t <= x.t;
        InRangeMembers(s, lo, hi);
        LatestTooOld(r, t, lookback);
      } else {
        assert Ascending(init);
        InRangeLatest(init, lo, hi, t, lookback);
        hide InRange, Ascending;
        assert lo <= x.t <= hi ==> r[|r| - 1] == x && r[..|r| - 1] == ri;
        assert x.t > hi ==> r == ri;
      }
    }
  }

  lemma SameInWindows(a: Stored, b: Stored, lo: int, hi: int, x: int, y: int)
    requires SameIn(a, b, lo, hi) && lo <= x && y <= hi
    ensures SameWindows(a, b, x, y)
  {
    hide InRange, Window;
    forall k ensures WindowOf(a, k, x, y) == WindowOf(b, k, x, y) {
      assert SamplesOf(a, k, lo, hi) == SamplesOf(b, k, lo, hi);
      if k in a {
        InRangeWindow(a[k], lo, hi, x, y);
      }
      if k in b {
        InRangeWindow(b[k], lo, hi, x, y);
      }
      assert Window([], x, y) == [] by { WindowEmpty([], x, y); }
    }
  }

  lemma SameInLatest(env: Env, a: Stored, b: Stored, offset: int, lo: int, hi: int, g: int)
    requires EnvOk(env) && StoredOk(a) && StoredOk(b)
    requires SameIn(a, b, lo, hi) && lo <= g - offset - env.lookback && g - offset <= hi
    ensures Meaning(env, VectorSelector(a, offset), g) == Meaning(env, VectorSelector(b, offset), g)
  {
    var t := g - offset;
    forall k ensures LatestOf(a, k, t, env.lookback) == LatestOf(b, k, t, env.lookback) {
      SameLatest(a, b, k, lo, hi, t, env.lookback);
    }
    hide LatestOf, SameIn;
    assert Selected(a, t, env.lookback) == Selected(b, t, env.lookback);
  }

  lemma SameLatest(a: Stored, b: Stored, k: Metric, lo: int, hi: int, t: int, lookback: int)
    requires StoredOk(a) && StoredOk(b) && lookback >= 0
    requires SameIn(a, b, lo, hi) && lo <= t - lookback && t <= hi
    ensures LatestOf(a, k, t, lookback) == LatestOf(b, k, t, lookback)
  {
    hide InRange, Ascending;
    assert SamplesOf(a, k, lo, hi) == SamplesOf(b, k, lo, hi);
    if k in a {
      InRangeLatest(a[k], lo, hi, t, lookback);
    }
    if k in b {
      InRangeLatest(b[k], lo, hi, t, lookback);
    }
  }

  lemma {:induction false} SameSubquery(env: Env, e: Expr, e': Expr, g: int, hi: int, st: int)
    requires EnvOk(env) && WellFormed(e) && WellFormed(e') && st > 0
    requires forall t :: g <= t <= hi ==> Meaning(env, e, t) == Meaning(env, e', t)
    ensures SubKeys(env, e, g, hi, st) == SubKeys(env, e', g, hi, st)
    ensures forall k :: SubSamples(env, e, k, g, hi, st) == SubSamples(env, e', k, g, hi, st)
    decreases hi - g
  {
    hide Meaning;
    if g <= hi {
      SameSubquery(env, e, e', g + st, hi, st);
    }
  }

  /** Evaluation reads nothing outside the hinted ranges: over any data that
      agrees there, the expression means the same at every step of the query. */
  lemma {:induction false} HintsSuffice(env: Env, e: Expr, e': Expr, start: int, end: int, subq: int, g: int)
    requires EnvOk(env) && WellFormed(e) && WellFormed(e') && OffsetsOk(e)
    requires SameFetched(env, e, e', start, end, subq)
    requires start - subq <= g <= end
    ensures Meaning(env, e, g) == Meaning(env, e', g)
    decreases e, 1
  {
    match (e, e')
    case (StepCall(_, args), StepCall(_, args')) => AllHintsSuffice(env, args, args', start, end, subq, g);
    case (ScalarCall(_, args), ScalarCall(_, args')) => AllHintsSuffice(env, args, args', start, end, subq, g);
    case (VectorSelector(s, offset), VectorSelector(s', _)) =>
      SameInLatest(env, s, s', offset, HintStart(start, subq, env.lookback, offset), HintEnd(end, offset), g);
    case (RangeCall(_, _, _), RangeCall(_, _, _)) => CallHintsSuffice(env, e, e', start, end, subq, g);
    case (Negate(x), Negate(x')) => HintsSuffice(env, x, x', start, end, subq, g);
    case (Paren(x), Paren(x')) => HintsSuffice(env, x, x', start, end, subq, g);
  }

  lemma {:induction false} CallHintsSuffice(env: Env, e: Expr, e': Expr, start: int, end: int, subq: int, g: int)
    requires EnvOk(env) && WellFormed(e) && WellFormed(e') && OffsetsOk(e) && e.RangeCall? && e'.RangeCall?
    requires SameFetched(env, e, e', start, end, subq)
    requires start - subq <= g <= end
    ensures CallOutputs(env, e, g) == CallOutputs(env, e', g)
    decreases e, 0
  {
    AllHintsSuffice(env, e.scalars, e'.scalars, start, end, subq, g);
    ArgHintsSuffice(env, e.arg, e'.arg, start, end, subq, g);
    hide Outputs, SameWindows, RangeData;
    OutputsFromWindows(e.rf, ScalarsOf(Meanings(env, e.scalars, g)), RangeData(env, e.arg, g), RangeData(env, e'.arg, g), g, e.arg.range, e.arg.offset);
  }

  lemma {:induction false} AllHintsSuffice(env: Env, es: seq<Expr>, es': seq<Expr>, start: int, end: int, subq: int, g: int)
    requires EnvOk(env) && |es| == |es'|
    requires forall i :: 0 <= i < |es| ==> WellFormed(es[i]) && WellFormed(es'[i]) && OffsetsOk(es[i])
    requires forall i :: 0 <= i < |es| ==> SameFetched(env, es[i], es'[i], start, end, subq)
    requires start - subq <= g <= end
    ensures Meanings(env, es, g) == Meanings(env, es', g)
    decreases es, 0
  {
    hide Meaning, SameFetched;
    forall i | 0 <= i < |es| ensures Meaning(env, es[i], g) == Meaning(env, es'[i], g) {
      HintsSuffice(env, es[i], es'[i], start, end, subq, g);
    }
  }

  lemma {:induction false} ArgHintsSuffice(env: Env, arg: RangeArg, arg': RangeArg, start: int, end: int, subq: int, g: int)
    requires EnvOk(env) && ArgOk(arg) && ArgOk(arg') && ArgOffsetsOk(arg)
    requires SameArgFetched(env, arg, arg', start, end, subq)
    requires start - subq <= g <= end
    ensures arg.range == arg'.range && arg.offset == arg'.offset
    ensures SameWindows(RangeData(env, arg, g), RangeData(env, arg', g), g - arg.offset - arg.range, g - arg.offset)
    decreases arg, 0
  {
    match (arg, arg')
    case (MatrixSelector(s, range, offset), MatrixSelector(s', _, _)) =>
      SameInWindows(s, s', HintStart(start, subq, range, offset), HintEnd(end, offset), g - offset - range, g - offset);
    case (Subquery(e, range, step, offset), Subquery(e', _, _, _)) =>
      var st := SubStep(env, step);
      var from := AlignUp(g - offset - range, st);
      AlignUpIsNext(g - offset - range, st);
      forall t | from <= t <= g - offset ensures Meaning(env, e, t) == Meaning(env, e', t) {
        HintsSuffice(env, e, e', start, end, subq + range + offset, t);
      }
      SameSubquery(env, e, e', from, g - offset, st);
      assert SubData(env, e, from, g - offset, st) == SubData(env, e', from, g - offset, st);
  }

  /** Whether a range query raises an error is decided by the hinted ranges as well. */
  lemma {:induction false} HintsDecideErrors(env: Env, e: Expr, e': Expr, start: int, end: int, subq: int, from: int, to: int, step: int)
    requires EnvOk(env) && WellFormed(e) && WellFormed(e') && OffsetsOk(e)
    requires SameFetched(env, e, e', start, end, subq)
    requires start - subq <= from && to <= end && step > 0
    ensures RangeOk(env, e, from, to, step) <==> RangeOk(env, e', from, to, step)
    decreases e, 1
  {
    hide Meaning, Meanings, CallOutputs, NameClash, Unique;
    match (e, e')
    case (StepCall(_, args), StepCall(_, args')) =>
      AllHintsDecideErrors(env, args, args', start, end, subq, from, to, step);
      forall ts | InGrid(ts, from, to, step) ensures Meanings(env, args, ts) == Meanings(env, args', ts) {
        AllHintsSuffice(env, args, args', start, end, subq, ts);
      }
    case (ScalarCall(_, args), ScalarCall(_, args')) => AllHintsDecideErrors(env, args, args', start, end, subq, from, to, step);
    case (VectorSelector(_, _), VectorSelector(_, _)) =>
    case (RangeCall(_, arg, scalars), RangeCall(_, arg', scalars')) =>
      AllHintsDecideErrors(env, scalars, scalars', start, end, subq, from, to, step);
      ArgHintsDecideErrors(env, arg, arg', start, end, subq, from, to);
      forall ts | InGrid(ts, from, to, step) ensures CallOutputs(env, e, ts) == CallOutputs(env, e', ts) {
        CallHintsSuffice(env, e, e', start, end, subq, ts);
      }
    case (Negate(x), Negate(x')) =>
      HintsDecideErrors(env, x, x', start, end, subq, from, to, step);
      forall ts | InGrid(ts, from, to, step) ensures Meaning(env, x, ts) == Meaning(env, x', ts) {
        HintsSuffice(env, x, x', start, end, subq, ts);
      }
    case (Paren(x), Paren(x')) => HintsDecideErrors(env, x, x', start, end, subq, from, to, step);
  }

  lemma {:induction false} AllHintsDecideErrors(env: Env, es: seq<Expr>, es': seq<Expr>, start: int, end: int, subq: int, from: int, to: int, step: int)
    requires EnvOk(env) && |es| == |es'|
    requires forall i :: 0 <= i < |es| ==> WellFormed(es[i]) && WellFormed(es'[i]) && OffsetsOk(es[i])
    requires forall i :: 0 <= i < |es| ==> SameFetched(env, es[i], es'[i], start, end, subq)
    requires start - subq <= from && to <= end && step > 0
    ensures forall i :: 0 <= i < |es| ==> (RangeOk(env, es[i], from, to, step) <==> RangeOk(env, es'[i], from, to, step))
    decreases es, 0
  {
    hide RangeOk, SameFetched;
    forall i | 0 <= i < |es| ensures RangeOk(env, es[i], from, to, step) <==> RangeOk(env, es'[i], from, to, step) {
      HintsDecideErrors(env, es[i], es'[i], start, end, subq, from, to, step);
    }
  }

  lemma {:induction false} ArgHintsDecideErrors(env: Env, arg: RangeArg, arg': RangeArg, start: int, end: int, subq: int, from: int, to: int)
    requires EnvOk(env) && ArgOk(arg) && ArgOk(arg') && ArgOffsetsOk(arg)
    requires SameArgFetched(env, arg, arg', start, end, subq)
    requires start - subq <= from && to <= end
    ensures RangeArgOk(env, arg, from, to) <==> RangeArgOk(env, arg', from, to)
    decreases arg, 0
  {
    hide RangeOk, SameFetched, WellFormed, OffsetsOk, StoredOk, SameIn;
    match (arg, arg')
    case (MatrixSelector(_, _, _), MatrixSelector(_, _, _)) =>
    case (Subquery(e, range, step, offset), Subquery(e', _, _, _)) =>
      var st := SubStep(env, step);
      AlignUpIsNext(from - offset - range, st);
      HintsDecideErrors(env, e, e', start, end, subq + range + offset, AlignUp(from - offset - range, st), to - offset, st);
  }

  // ----- fetching with one range for all selectors -----

  /** What the database returns for a selector: the rows in the fetched range, series without any left out. */
  function Fetched(data: Stored, lo: int, hi: int): Stored {
    map k | k in data && InRange(data[k], lo, hi) != [] :: InRange(data[k], lo, hi)
  }

  /** The expression over what was fetched for [lo, hi]. */
  function Trimmed(e: Expr, lo: int, hi: int): Expr
    decreases e, 1
  {
    match e
    case StepCall(f, args) => StepCall(f, TrimmedAll(args, lo, hi))
    case ScalarCall(f, args) => ScalarCall(f, TrimmedAll(args, lo, hi))
    case VectorSelector(series, offset) => VectorSelector(Fetched(series, lo, hi), offset)
    case RangeCall(f, arg, scalars) => RangeCall(f, TrimmedArg(arg, lo, hi), TrimmedAll(scalars, lo, hi))
    case Negate(e') => Negate(Trimmed(e', lo, hi))
    case Paren(e') => Paren(Trimmed(e', lo, hi))
  }

  function TrimmedAll(es: seq<Expr>, lo: int, hi: int): (r: seq<Expr>)
    ensures |r| == |es| && forall i :: 0 <= i < |es| ==> r[i] == Trimmed(es[i], lo, hi)
    decreases es, 0
  {
    if es == [] then [] else [Trimmed(es[0], lo, hi)] + TrimmedAll(es[1..], lo, hi)
  }

  function TrimmedArg(arg: RangeArg, lo: int, hi: int): RangeArg
    decreases arg, 0
  {
    match arg
    case MatrixSelector(series, range, offset) => MatrixSelector(Fetched(series, lo, hi), range, offset)
    case Subquery(e, range, step, offset) => Subquery(Trimmed(e, lo, hi), range, step, offset)
  }

  lemma {:induction false} InRangeTwice(s: seq<Sample>, lo: int, hi: int, a: int, b: int)
    requires lo <= a && b <= hi
    ensures InRange(InRange(s, lo, hi), a, b) == InRange(s, a, b)
  {
    if s != [] {
      InRangeTwice(s[1..], lo, hi, a, b);
      if lo <= s[0].t <= hi {
        assert InRange(s, lo, hi)[1..] == InRange(s[1..], lo, hi);
      } else {
        assert InRange(s, lo, hi) == InRange(s[1..], lo, hi);
      }
    }
  }

  lemma FetchedSame(data: Stored, lo: int, hi: int, a: int, b: int)
    requires lo <= a && b <= hi && StoredOk(data)
    ensures SameIn(data, Fetched(data, lo, hi), a, b) && StoredOk(Fetched(data, lo, hi))
  {
    hide InRange, Ascending;
    forall k | k in data ensures InRange(InRange(data[k], lo, hi), a, b) == InRange(data[k], a, b) && Ascending(InRange(data[k], lo, hi)) {
      InRangeTwice(data[k], lo, hi, a, b);
      InRangeMembers(data[k], lo, hi);
    }
    InRangeEmpty(a, b);
  }

  lemma InRangeEmpty(lo: int, hi: int)
    ensures InRange([], lo, hi) == []
  {
  }

  lemma {:induction false} TrimmedIsFetched(env: Env, e: Expr, start: int, end: int, subq: int, lo: int, hi: int)
    requires WellFormed(e) && HintsWithin(env, e, start, end, subq, lo, hi)
    ensures WellFormed(Trimmed(e, lo, hi)) && SameFetched(env, e, Trimmed(e, lo, hi), start, end, subq)
    ensures IsScalar(e) ==> IsScalar(Trimmed(e, lo, hi))
    decreases e, 1
  {
    hide Fetched, SameIn, StoredOk;
    match e
    case StepCall(_, args) => TrimmedAllFetched(env, args, start, end, subq, lo, hi);
    case ScalarCall(_, args) => TrimmedAllFetched(env, args, start, end, subq, lo, hi);
    case VectorSelector(series, offset) =>
      FetchedSame(series, lo, hi, HintStart(start, subq, env.lookback, offset), HintEnd(end, offset));
    case RangeCall(_, arg, scalars) =>
      TrimmedAllFetched(env, scalars, start, end, subq, lo, hi);
      TrimmedArgFetched(env, arg, start, end, subq, lo, hi);
    case Negate(e') => TrimmedIsFetched(env, e', start, end, subq, lo, hi);
    case Paren(e') => TrimmedIsFetched(env, e', start, end, subq, lo, hi);
  }

  lemma {:induction false} TrimmedAllFetched(env: Env, es: seq<Expr>, start: int, end: int, subq: int, lo: int, hi: int)
    requires forall i :: 0 <= i < |es| ==> WellFormed(es[i]) && HintsWithin(env, es[i], start, end, subq, lo, hi)
    ensures forall i :: 0 <= i < |es| ==>
      var t := TrimmedAll(es, lo, hi)[i];
      WellFormed(t) && SameFetched(env, es[i], t, start, end, subq) && (IsScalar(es[i]) ==> IsScalar(t))
    decreases es, 0
  {
    hide WellFormed, SameFetched, IsScalar, HintsWithin;
    forall i | 0 <= i < |es|
      ensures var t := TrimmedAll(es, lo, hi)[i];
              WellFormed(t) && SameFetched(env, es[i], t, start, end, subq) && (IsScalar(es[i]) ==> IsScalar(t))
    {
      TrimmedIsFetched(env, es[i], start, end, subq, lo, hi);
    }
  }

  lemma {:induction false} TrimmedArgFetched(env: Env, arg: RangeArg, start: int, end: int, subq: int, lo: int, hi: int)
    requires ArgOk(arg) && ArgHintsWithin(env, arg, start, end, subq, lo, hi)
    ensures ArgOk(TrimmedArg(arg, lo, hi)) && SameArgFetched(env, arg, TrimmedArg(arg, lo, hi), start, end, subq)
    decreases arg, 0
  {
    hide Fetched, SameIn, StoredOk;
    match arg
    case MatrixSelector(series, range, offset) =>
      FetchedSame(series, lo, hi, HintStart(start, subq, range, offset), HintEnd(end, offset));
    case Subquery(e, range, step, offset) => TrimmedIsFetched(env, e, start, end, subq + range + offset, lo, hi);
  }

  /** The fetched time range suffices: evaluated over the rows between
      `findMinTime` and the query end alone, every expression means at every step
      what it means over all stored data, and the query fails exactly when it
      fails over all stored data. */
  lemma FetchSuffices(env: Env, e: Expr, start: int, end: int, ts: int)
    requires EnvOk(env) && WellFormed(e) && OffsetsOk(e) && start <= ts <= end
    ensures WellFormed(Trimmed(e, FindMinTime(env, e, start), end))
    ensures Meaning(env, Trimmed(e, FindMinTime(env, e, start), end), ts) == Meaning(env, e, ts)
    ensures forall step :: step > 0 ==>
      (RangeOk(env, Trimmed(e, FindMinTime(env, e, start), end), start, end, step) <==> RangeOk(env, e, start, end, step))
  {
    hide Meaning, WellFormed, SameFetched, HintsWithin, RangeOk;
    var lo := FindMinTime(env, e, start);
    FetchCoversHints(env, e, start, end, 0);
    TrimmedIsFetched(env, e, start, end, 0, lo, end);
    HintsSuffice(env, e, Trimmed(e, lo, end), start, end, 0, ts);
    forall step | step > 0 ensures RangeOk(env, Trimmed(e, lo, end), start, end, step) <==> RangeOk(env, e, start, end, step) {
      HintsDecideErrors(env, e, Trimmed(e, lo, end), start, end, 0, start, end, step);
    }
  }

  /** The hinted range of a selector is no wider than what it reads: with one sample
      at either end of it, the selector has that sample at the first or last step. */
  lemma HintsAreRead(env: Env, k: Metric, x: real, start: int, end: int, offset: int)
    requires EnvOk(env) && offset >= 0
    ensures var s := VectorSelector(map[k := [Sample(HintStart(start, 0, env.lookback, offset), Num(x))]], offset);
      WellFormed(s) && Meaning(env, s, start) == map[k := x]
    ensures var s := VectorSelector(map[k := [Sample(HintEnd(end, offset), Num(x))]], offset);
      WellFormed(s) && Meaning(env, s, end) == map[k := x]
  {
    OneSampleRead(env, k, x, HintStart(start, 0, env.lookback, offset), offset, start);
    OneSampleRead(env, k, x, HintEnd(end, offset), offset, end);
  }

  lemma OneSampleRead(env: Env, k: Metric, x: real, at: int, offset: int, ts: int)
    requires EnvOk(env) && ts - offset - env.lookback <= at <= ts - offset
    ensures var s := VectorSelector(map[k := [Sample(at, Num(x))]], offset);
      WellFormed(s) && Meaning(env, s, ts) == map[k := x]
  {
    var data: Stored := map[k := [Sample(at, Num(x))]];
    assert Ascending(data[k]);
    assert Latest(data[k], ts - offset, env.lookback) == Some(x);
    assert Selected(data, ts - offset, env.lookback) == map[k := x];
  }

  /** So is that of a matrix selector. */
  lemma RangeHintsAreRead(x: real, start: int, end: int, range: int, offset: int)
    requires range >= 0 && offset >= 0
    ensures Window([Sample(HintStart(start, 0, range, offset), Num(x))], start - offset - range, start - offset)
      == [Point(HintStart(start, 0, range, offset), x)]
    ensures Window([Sample(HintEnd(end, offset), Num(x))], end - offset - range, end - offset) == [Point(HintEnd(end, offset), x)]
  {
    OneInWindow(HintStart(start, 0, range, offset), x, start - offset - range, start - offset);
    OneInWindow(HintEnd(end, offset), x, end - offset - range, end - offset);
  }

  lemma OneInWindow(t: int, x: real, lo: int, hi: int)
    requires lo <= t <= hi
    ensures Window([Sample(t, Num(x))], lo, hi) == [Point(t, x)]
  {
    var s := [Sample(t, Num(x))];
    assert s[1..] == [];
    assert Window(s, lo, hi) == [Point(t, x)] + Window([], lo, hi);
  }
}
