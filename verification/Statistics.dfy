/** One-pass statistics: running mean and variance, and least-squares lines. */
module Statistics {
  import opened Common

  import opened Samples

  // ----- mean and variance -----

  function Sum(xs: seq<real>): real {
    if xs == [] then 0.0 else Sum(xs[..|xs| - 1]) + xs[|xs| - 1]
  }

  function Sq(x: real): real {
    x * x
  }

  /** The squared distances from `c`, summed. */
  function Deviation(xs: seq<real>, c: real): real {
    if xs == [] then 0.0
    else Deviation(xs[..|xs| - 1], c) + Sq(xs[|xs| - 1] - c)
  }

  lemma SumAppend(xs: seq<real>, v: real)
    ensures Sum(xs + [v]) == Sum(xs) + v
  {
    assert (xs + [v])[..|xs|] == xs;
  }

  lemma DeviationAppend(xs: seq<real>, v: real, c: real)
    ensures Deviation(xs + [v], c) == Deviation(xs, c) + Sq(v - c)
  {
    assert (xs + [v])[..|xs|] == xs;
  }

  /** What measuring `n` values from a point `d` below `m` adds to their squared distances from `m`. */
  function Shifted(d: real, sum: real, m: real, n: real): real {
    2.0 * d * sum - 2.0 * d * m * n + Sq(d) * n
  }

  lemma SquareAround(x: real, m: real, c: real)
    ensures Sq(x - c) == Sq(x - m) + Shifted(m - c, x, m, 1.0)
  {
  }

  lemma ShiftStep(d: real, sum: real, x: real, m: real, n: real)
    ensures Shifted(d, sum + x, m, n + 1.0) == Shifted(d, sum, m, n) + Shifted(d, x, m, 1.0)
  {
  }

  /** Measuring from `c` instead of `m`. */
  lemma {:induction false} DeviationShift(xs: seq<real>, m: real, c: real)
    ensures Deviation(xs, c) == Deviation(xs, m) + Shifted(m - c, Sum(xs), m, |xs| as real)
  {
    if xs == [] {
      assert Shifted(m - c, 0.0, m, 0.0) == 0.0;
    } else {
      DeviationShift(xs[..|xs| - 1], m, c);
      DeviationShiftNext(xs[..|xs| - 1], xs[|xs| - 1], m, c);
      assert xs == xs[..|xs| - 1] + [xs[|xs| - 1]];
    }
  }

  lemma DeviationShiftNext(xs: seq<real>, x: real, m: real, c: real)
    requires Deviation(xs, c) == Deviation(xs, m) + Shifted(m - c, Sum(xs), m, |xs| as real)
    ensures Deviation(xs + [x], c) == Deviation(xs + [x], m) + Shifted(m - c, Sum(xs + [x]), m, |xs + [x]| as real)
  {
    hide Shifted, Sq, Deviation, Sum;
    SquareAround(x, m, c);
    ShiftStep(m - c, Sum(xs), x, m, |xs| as real);
    SumAppend(xs, x);
    DeviationAppend(xs, x, c);
    DeviationAppend(xs, x, m);
  }

  ghost predicate IsMean(xs: seq<real>, m: real) {
    m * |xs| as real == Sum(xs)
  }

  /** The mean minimises the deviation, which grows by the square of the distance from it. */
  lemma DeviationFromMean(xs: seq<real>, m: real, c: real)
    requires IsMean(xs, m)
    ensures Deviation(xs, c) == Deviation(xs, m) + Sq(m - c) * |xs| as real
  {
    hide Shifted, Sq, Deviation, Sum;
    DeviationShift(xs, m, c);
    CancelMean(m - c, m, |xs| as real, Sum(xs));
  }

  lemma CancelMean(d: real, m: real, n: real, sum: real)
    requires m * n == sum
    ensures Shifted(d, sum, m, n) == Sq(d) * n
  {
    assert 2.0 * d * m * n == 2.0 * d * (m * n);
  }

  lemma MeanStep(m: real, n: real, sum: real, v: real)
    requires n >= 0.0 && m * n == sum
    ensures (m + (v - m) / (n + 1.0)) * (n + 1.0) == sum + v
  {
    var e := (v - m) / (n + 1.0);
    assert e * (n + 1.0) == v - m;
    assert (m + e) * (n + 1.0) == m * n + m + e * (n + 1.0);
  }

  lemma WelfordAlgebra(m: real, n: real, v: real)
    requires n >= 0.0
    ensures var delta := v - m; var m' := m + delta / (n + 1.0);
            Sq(m - m') * n + Sq(v - m') == delta * (v - m')
  {
    var delta := v - m;
    var e := delta / (n + 1.0);
    var m' := m + e;
    assert delta == e * (n + 1.0);
    assert v - m' == e * n;
    assert m - m' == -e;
    SquaresOfStep(e, n);
  }

  lemma SquaresOfStep(e: real, n: real)
    ensures Sq(-e) * n + Sq(e * n) == e * (n + 1.0) * (e * n)
  {
    var f := e * n;
    assert Sq(-e) * n == e * f;
    assert e * (n + 1.0) == f + e;
    assert (f + e) * f == f * f + e * f;
  }

  /** One more value keeps the running mean a mean and the running sum its deviation. */
  lemma WelfordStep(xs: seq<real>, m: real, aux: real, v: real)
    requires IsMean(xs, m) && aux == Deviation(xs, m)
    ensures var delta := v - m; var m' := m + delta / (|xs| + 1) as real;
            IsMean(xs + [v], m') && aux + delta * (v - m') == Deviation(xs + [v], m')
  {
    hide Sum, Deviation, Sq;
    var n := |xs| as real;
    assert (|xs| + 1) as real == n + 1.0 == |xs + [v]| as real;
    var m' := m + (v - m) / (n + 1.0);
    SumAppend(xs, v);
    DeviationAppend(xs, v, m');
    DeviationFromMean(xs, m, m');
    MeanStep(m, n, Sum(xs), v);
    WelfordAlgebra(m, n, v);
  }

  method AvgOverTime(values: seq<real>) returns (mean: real)
    ensures IsMean(values, mean)
  {
    hide Sum;
    mean := 0.0;
    var count := 0;
    EmptyMean(values[..0]);
    for i := 0 to |values|
      invariant count == i && IsMean(values[..i], mean)
    {
      assert values[..i + 1] == values[..i] + [values[i]];
      assert Deviation(values[..i], mean) == Deviation(values[..i], mean);
      WelfordStep(values[..i], mean, Deviation(values[..i], mean), values[i]);
      count := count + 1;
      mean := mean + (values[i] - mean) / count as real;
    }
    assert values[..|values|] == values;
  }

  lemma EmptyMean(xs: seq<real>)
    requires xs == []
    ensures IsMean(xs, 0.0) && Deviation(xs, 0.0) == 0.0
  {
  }

  /** The population variance; none (a NaN) without values. */
  method StdvarOverTime(values: seq<real>) returns (r: Option<real>, ghost mean: real)
    ensures r.Some? <==> values != []
    ensures r.Some? ==> IsMean(values, mean) && r.value * |values| as real == Deviation(values, mean)
  {
    hide Sum, Deviation;
    var aux, m, count := 0.0, 0.0, 0;
    EmptyMean(values[..0]);
    for i := 0 to |values|
      invariant count == i && IsMean(values[..i], m) && aux == Deviation(values[..i], m)
    {
      assert values[..i + 1] == values[..i] + [values[i]];
      WelfordStep(values[..i], m, aux, values[i]);
      count := count + 1;
      var delta := values[i] - m;
      m := m + delta / count as real;
      aux := aux + delta * (values[i] - m);
    }
    assert values[..|values|] == values;
    mean := m;
    if count == 0 {
      return None, mean;
    }
    return Some(aux / count as real), mean;
  }

  /** The state of one group in an aggregation by `avg`, `stdvar` or `stddev`. */
  class GroupedAggregation {
    var mean: real
    var value: real
    var groupCount: nat
    ghost var seen: seq<real>

    ghost predicate Valid()
      reads this
    {
      groupCount == |seen| && IsMean(seen, mean) && value == Deviation(seen, mean)
    }

    /** A group starts with its first sample as the mean. */
    constructor (v: real)
      ensures Valid() && seen == [v]
    {
      mean, value, groupCount, seen := v, 0.0, 1, [v];
      new;
      assert [v][..0] == [];
    }

    method Add(v: real)
      requires Valid()
      modifies this
      ensures Valid() && seen == old(seen) + [v]
    {
      hide Sum, Deviation;
      WelfordStep(seen, mean, value, v);
      groupCount := groupCount + 1;
      var delta := v - mean;
      mean := mean + delta / groupCount as real;
      value := value + delta * (v - mean);
      seen := seen + [v];
    }

    method Variance() returns (r: real)
      requires Valid() && seen != []
      ensures r * |seen| as real == Deviation(seen, mean)
    {
      r := value / groupCount as real;
    }
  }

  // ----- least squares -----

  datatype Obs = Obs(x: real, y: real)

  /** Observations in seconds from the time of the intercept. */
  function Observed(points: seq<Point>, time: int): (r: seq<Obs>)
    ensures |r| == |points|
    ensures forall i :: 0 <= i < |points| ==> r[i] == Obs((points[i].t - time) as real / 1000.0, points[i].v)
  {
    seq(|points|, i requires 0 <= i < |points| => Obs((points[i].t - time) as real / 1000.0, points[i].v))
  }

  /** What a line with slope `a` and value `b` at 0 misses an observation by. */
  function Miss(o: Obs, a: real, b: real): real {
    o.y - a * o.x - b
  }

  /** The squared error of a line. */
  function Err(s: seq<Obs>, a: real, b: real): real {
    if s == [] then 0.0
    else
      Err(s[..|s| - 1], a, b) + Sq(Miss(s[|s| - 1], a, b))
  }

  function SumX(s: seq<Obs>): real { if s == [] then 0.0 else SumX(s[..|s| - 1]) + s[|s| - 1].x }
  function SumY(s: seq<Obs>): real { if s == [] then 0.0 else SumY(s[..|s| - 1]) + s[|s| - 1].y }
  function SumXY(s: seq<Obs>): real { if s == [] then 0.0 else SumXY(s[..|s| - 1]) + s[|s| - 1].x * s[|s| - 1].y }
  function SumX2(s: seq<Obs>): real { if s == [] then 0.0 else SumX2(s[..|s| - 1]) + s[|s| - 1].x * s[|s| - 1].x }

  /** The misses of a line summed, plainly and weighted by where they occur. */
  function Misses(s: seq<Obs>, a: real, b: real): real {
    SumY(s) - a * SumX(s) - b * |s| as real
  }

  function WeightedMisses(s: seq<Obs>, a: real, b: real): real {
    SumXY(s) - a * SumX2(s) - b * SumX(s)
  }

  function LineAt(x: real, p: real, q: real): real {
    p * x + q
  }

  /** How far apart two lines are, squared and summed, where they differ by slope `p` and offset `q`. */
  function Apart(s: seq<Obs>, p: real, q: real): real {
    if s == [] then 0.0
    else
      Apart(s[..|s| - 1], p, q) + Sq(LineAt(s[|s| - 1].x, p, q))
  }

  /** The weighted miss of one observation. */
  function WeightedMiss(o: Obs, a: real, b: real): real {
    o.x * o.y - a * (o.x * o.x) - b * o.x
  }

  function Cross(p: real, u: real, q: real, w: real): real {
    2.0 * (p * u + q * w)
  }

  lemma MissStep(o: Obs, a: real, b: real, p: real, q: real)
    ensures Sq(Miss(o, a - p, b - q)) == Sq(Miss(o, a, b)) + Cross(p, WeightedMiss(o, a, b), q, Miss(o, a, b)) + Sq(LineAt(o.x, p, q))
  {
    var r, d := Miss(o, a, b), LineAt(o.x, p, q);
    assert Miss(o, a - p, b - q) == r + d;
    assert o.x * r == WeightedMiss(o, a, b);
    assert d * r == p * (o.x * r) + q * r;
    assert Sq(r + d) == Sq(r) + 2.0 * (d * r) + Sq(d);
  }

  lemma CrossSum(p: real, u: real, v: real, q: real, w: real, z: real)
    ensures Cross(p, u + v, q, w + z) == Cross(p, u, q, w) + Cross(p, v, q, z)
  {
  }

  lemma MissSum(a: real, b: real, u: real, x: real, n: real)
    ensures a * (u + x) == a * u + a * x && b * (n + 1.0) == b * n + b
  {
  }

  lemma MissesStep(s: seq<Obs>, a: real, b: real)
    requires s != []
    ensures WeightedMisses(s, a, b) == WeightedMisses(s[..|s| - 1], a, b) + WeightedMiss(s[|s| - 1], a, b)
    ensures Misses(s, a, b) == Misses(s[..|s| - 1], a, b) + Miss(s[|s| - 1], a, b)
  {
    var init, o := s[..|s| - 1], s[|s| - 1];
    assert |s| as real == |init| as real + 1.0;
    MissSum(a, b, SumX(init), o.x, |init| as real);
    MissSum(a, b, SumX2(init), o.x * o.x, SumX(init));
    assert b * (SumX(init) + o.x) == b * SumX(init) + b * o.x;
  }

  /** The error of any line in terms of another one's. */
  lemma {:induction false} ErrorOf(s: seq<Obs>, a: real, b: real, p: real, q: real)
    ensures Err(s, a - p, b - q) == Err(s, a, b) + Cross(p, WeightedMisses(s, a, b), q, Misses(s, a, b)) + Apart(s, p, q)
  {
    if s == [] {
      assert WeightedMisses(s, a, b) == 0.0 && Misses(s, a, b) == 0.0;
    } else {
      ErrorOf(s[..|s| - 1], a, b, p, q);
      ErrorOfNext(s, a, b, p, q);
    }
  }

  lemma ErrorOfNext(s: seq<Obs>, a: real, b: real, p: real, q: real)
    requires s != []
    requires var init := s[..|s| - 1];
      Err(init, a - p, b - q) == Err(init, a, b) + Cross(p, WeightedMisses(init, a, b), q, Misses(init, a, b)) + Apart(init, p, q)
    ensures Err(s, a - p, b - q) == Err(s, a, b) + Cross(p, WeightedMisses(s, a, b), q, Misses(s, a, b)) + Apart(s, p, q)
  {
    hide Cross, Sq, Miss, WeightedMiss, Misses, WeightedMisses, LineAt;
    var init, o := s[..|s| - 1], s[|s| - 1];
    MissStep(o, a, b, p, q);
    MissesStep(s, a, b);
    CrossSum(p, WeightedMisses(init, a, b), WeightedMiss(o, a, b), q, Misses(init, a, b), Miss(o, a, b));
  }

  /** A sum of products less the product of the sums over `n`. */
  function Centred(products: real, sum1: real, sum2: real, n: real): real
    requires n != 0.0
  {
    products - sum1 * sum2 / n
  }

  function CovXY(s: seq<Obs>): real
    requires s != []
  {
    Centred(SumXY(s), SumX(s), SumY(s), |s| as real)
  }

  function VarX(s: seq<Obs>): real
    requires s != []
  {
    Centred(SumX2(s), SumX(s), SumX(s), |s| as real)
  }

  function Slope(s: seq<Obs>): real
    requires s != [] && VarX(s) != 0.0
  {
    CovXY(s) / VarX(s)
  }

  /** The value at 0 of the line with this slope through the point of the means. */
  function ThroughMeans(sumX: real, sumY: real, n: real, slope: real): real
    requires n != 0.0
  {
    sumY / n - slope * sumX / n
  }

  function Intercept(s: seq<Obs>): real
    requires s != [] && VarX(s) != 0.0
  {
    ThroughMeans(SumX(s), SumY(s), |s| as real, Slope(s))
  }

  lemma NormalAlgebra(n: real, sx: real, sy: real, sxy: real, sx2: real, slope: real, intercept: real)
    requires n > 0.0 && slope * Centred(sx2, sx, sx, n) == Centred(sxy, sx, sy, n) && intercept == ThroughMeans(sx, sy, n, slope)
    ensures sy - slope * sx - intercept * n == 0.0
    ensures sxy - slope * sx2 - intercept * sx == 0.0
  {
    var my, mx := sy / n, sx / n;
    assert sy == my * n && sx == mx * n;
    assert slope * sx / n == slope * mx by {
      assert slope * sx == slope * mx * n;
    }
    assert sx * sy / n == mx * sy by { assert sx * sy == mx * sy * n; }
    assert sx * sx / n == mx * sx by { assert sx * sx == mx * sx * n; }
    assert intercept == my - slope * mx;
    assert intercept * n == my * n - slope * (mx * n);
    assert intercept * sx == my * sx - slope * (mx * sx);
    assert my * sx == mx * sy by { assert my * (mx * n) == mx * (my * n); }
    assert slope * (sx2 - mx * sx) == slope * sx2 - slope * (mx * sx);
  }

  /** The fitted line misses nothing on balance. */
  lemma NormalEquations(s: seq<Obs>)
    requires s != [] && VarX(s) != 0.0
    ensures Misses(s, Slope(s), Intercept(s)) == 0.0 && WeightedMisses(s, Slope(s), Intercept(s)) == 0.0
  {
    hide SumX, SumY, SumXY, SumX2, Centred, ThroughMeans;
    var slope := Slope(s);
    Undo(CovXY(s), VarX(s));
    NormalAlgebra(|s| as real, SumX(s), SumY(s), SumXY(s), SumX2(s), slope, Intercept(s));
  }

  lemma Undo(x: real, y: real)
    requires y != 0.0
    ensures x / y * y == x
  {
  }

  // ----- when there is a line -----

  function Times(s: seq<Obs>): (r: seq<real>)
    ensures |r| == |s| && forall i :: 0 <= i < |s| ==> r[i] == s[i].x
  {
    seq(|s|, i requires 0 <= i < |s| => s[i].x)
  }

  lemma {:induction false} SumsOfTimes(s: seq<Obs>)
    ensures Sum(Times(s)) == SumX(s) && Deviation(Times(s), 0.0) == SumX2(s)
  {
    if s != [] {
      SumsOfTimes(s[..|s| - 1]);
      assert Times(s)[..|s| - 1] == Times(s[..|s| - 1]);
    }
  }

  lemma MeanAlgebra(n: real, sx: real, sx2: real, dev: real, m: real)
    requires n > 0.0 && m * n == sx && sx2 == dev + Sq(m - 0.0) * n
    ensures Centred(sx2, sx, sx, n) == dev
  {
    assert sx * sx / n == m * m * n by { assert sx * sx == m * m * n * n; }
  }

  ghost function MeanTime(s: seq<Obs>): (m: real)
    requires s != []
    ensures m * |s| as real == SumX(s)
  {
    Undo(SumX(s), |s| as real);
    SumX(s) / |s| as real
  }

  lemma VarXIsDeviation(s: seq<Obs>)
    requires s != []
    ensures VarX(s) == Deviation(Times(s), MeanTime(s))
  {
    hide Sum, Deviation, SumX, SumX2, Times, MeanTime, Sq, Centred;
    var m := MeanTime(s);
    SumsOfTimes(s);
    DeviationFromMean(Times(s), m, 0.0);
    MeanAlgebra(|s| as real, SumX(s), SumX2(s), Deviation(Times(s), m), m);
  }

  lemma {:induction false} DeviationSign(xs: seq<real>, c: real)
    ensures Deviation(xs, c) >= 0.0
    ensures Deviation(xs, c) > 0.0 <==> exists i :: 0 <= i < |xs| && xs[i] != c
  {
    if xs != [] {
      var n := |xs| - 1;
      DeviationSign(xs[..n], c);
      SquareSign(xs[n] - c);
      if i :| 0 <= i < |xs| && xs[i] != c {
        assert i < n ==> xs[..n][i] != c;
      }
    }
  }

  lemma SquareSign(x: real)
    ensures Sq(x) >= 0.0 && (Sq(x) == 0.0 <==> x == 0.0)
  {
    hide Sq;
    if x > 0.0 {
      SquarePositive(x);
    } else if x < 0.0 {
      SquarePositive(-x);
      SquareOfNegative(x);
    } else {
      SquareOfZero();
    }
  }

  lemma SquarePositive(x: real)
    requires x > 0.0
    ensures Sq(x) > 0.0
  {
    var half := x / 2.0;
    ProductPositive(x, half);
    assert Sq(x) == 2.0 * (x * half);
  }

  lemma ProductPositive(x: real, y: real)
    requires x > 0.0 && y > 0.0
    ensures x * y > 0.0
  {
  }

  lemma SquareOfNegative(x: real)
    ensures Sq(-x) == Sq(x)
  {
  }

  lemma SquareOfZero()
    ensures Sq(0.0) == 0.0
  {
  }

  /** There are two observations at different times. */
  ghost predicate TwoTimes(s: seq<Obs>) {
    exists i, j :: 0 <= i < |s| && 0 <= j < |s| && s[i].x != s[j].x
  }

  /** The variance of the times is positive if and only if two of them differ. */
  lemma VarXPositive(s: seq<Obs>)
    requires s != []
    ensures VarX(s) >= 0.0 && (VarX(s) > 0.0 <==> TwoTimes(s))
  {
    hide VarX, Deviation, SumX, MeanTime;
    var m := MeanTime(s);
    VarXIsDeviation(s);
    DeviationSign(Times(s), m);
    if TwoTimes(s) {
      var i, j :| 0 <= i < |s| && 0 <= j < |s| && s[i].x != s[j].x;
      assert Times(s)[i] != m || Times(s)[j] != m;
    } else {
      SameTimesMean(s, m);
    }
  }

  lemma SameTimesMean(s: seq<Obs>, m: real)
    requires s != [] && !TwoTimes(s) && m * |s| as real == SumX(s)
    ensures forall i :: 0 <= i < |s| ==> Times(s)[i] == m
  {
    hide SumX;
    forall i | 0 <= i < |s| ensures s[i].x == s[0].x {
    }
    SumSame(s, s[0].x);
    SameMultiple(s[0].x, m, |s| as real);
  }

  lemma SameMultiple(x: real, m: real, n: real)
    requires n > 0.0 && m * n == x * n
    ensures m == x
  {
    assert (m - x) * n == 0.0;
  }

  lemma {:induction false} SumSame(s: seq<Obs>, x: real)
    requires forall i :: 0 <= i < |s| ==> s[i].x == x
    ensures SumX(s) == x * |s| as real
  {
    if s != [] {
      SumSame(s[..|s| - 1], x);
    }
  }

  // ----- the fitted line is the best one -----

  lemma {:induction false} ApartSign(s: seq<Obs>, p: real, q: real, i: nat)
    requires i < |s|
    ensures Apart(s, p, q) >= 0.0 && (Apart(s, p, q) == 0.0 ==> LineAt(s[i].x, p, q) == 0.0)
  {
    hide LineAt, Sq;
    var n := |s| - 1;
    SquareSign(LineAt(s[n].x, p, q));
    if n > 0 {
      ApartSign(s[..n], p, q, if i < n then i else 0);
    }
  }

  lemma OnlyZeroLine(p: real, q: real, x: real, x': real)
    requires x != x' && LineAt(x, p, q) == 0.0 && LineAt(x', p, q) == 0.0
    ensures p == 0.0 && q == 0.0
  {
    assert p * (x - x') == 0.0;
  }

  /** No line has a smaller squared error than the fitted one, and no other line has the same. */
  lemma FittedIsBest(s: seq<Obs>, a: real, b: real)
    requires s != [] && VarX(s) > 0.0
    ensures Err(s, Slope(s), Intercept(s)) <= Err(s, a, b)
    ensures Err(s, a, b) == Err(s, Slope(s), Intercept(s)) ==> a == Slope(s) && b == Intercept(s)
  {
    hide Err, Slope, Intercept, VarX, Misses, WeightedMisses, Apart, LineAt;
    var p, q := Slope(s) - a, Intercept(s) - b;
    ErrorOf(s, Slope(s), Intercept(s), p, q);
    assert Slope(s) - p == a && Intercept(s) - q == b;
    NormalEquations(s);
    assert Cross(p, 0.0, q, 0.0) == 0.0;
    VarXPositive(s);
    var i, j :| 0 <= i < |s| && 0 <= j < |s| && s[i].x != s[j].x;
    ApartSign(s, p, q, i);
    ApartSign(s, p, q, j);
    if Apart(s, p, q) == 0.0 {
      OnlyZeroLine(p, q, s[i].x, s[j].x);
    }
  }

  // ----- the choice of the intercept time -----

  /** Moving the origin of time by `d` seconds. */
  ghost predicate Moved(s: seq<Obs>, s': seq<Obs>, d: real) {
    |s'| == |s| && forall i :: 0 <= i < |s| ==> s'[i].x == s[i].x + d && s'[i].y == s[i].y
  }

  lemma {:induction false} ErrorMoved(s: seq<Obs>, s': seq<Obs>, d: real, a: real, b: real)
    requires Moved(s, s', d)
    ensures Err(s', a, b) == Err(s, a, b + a * d)
  {
    if s != [] {
      var n := |s| - 1;
      ErrorMoved(s[..n], s'[..n], d, a, b);
      MissMoved(s[n], s'[n], d, a, b);
    }
  }

  lemma MissMoved(o: Obs, o': Obs, d: real, a: real, b: real)
    requires o'.x == o.x + d && o'.y == o.y
    ensures Miss(o', a, b) == Miss(o, a, b + a * d)
  {
    assert a * (o.x + d) == a * o.x + a * d;
  }

  /** The slope does not depend on where time starts, and the line stays the same. */
  lemma SlopeIndependent(s: seq<Obs>, s': seq<Obs>, d: real)
    requires Moved(s, s', d) && s != [] && VarX(s) > 0.0 && VarX(s') > 0.0
    ensures Slope(s') == Slope(s) && Intercept(s) == Intercept(s') + Slope(s) * d
  {
    hide Err, Slope, Intercept, VarX;
    var a, b, a', b' := Slope(s), Intercept(s), Slope(s'), Intercept(s');
    var c := b - a * d;
    ErrorMoved(s, s', d, a, c);
    assert c + a * d == b;
    ErrorMoved(s, s', d, a', b');
    FittedIsBest(s', a, c);
    FittedIsBest(s, a', b' + a' * d);
  }

  lemma ObservedMoved(points: seq<Point>, t0: int, t1: int)
    ensures Moved(Observed(points, t0), Observed(points, t1), (t0 - t1) as real / 1000.0)
  {
    forall i | 0 <= i < |points|
      ensures (points[i].t - t1) as real / 1000.0 == (points[i].t - t0) as real / 1000.0 + (t0 - t1) as real / 1000.0
    {
      assert (points[i].t - t1) as real == (points[i].t - t0) as real + (t0 - t1) as real;
    }
  }

  /** Whatever time the intercept is asked for, points at two different times have the same slope. */
  lemma SlopeOfPoints(points: seq<Point>, t0: int, t1: int)
    requires TwoTimes(Observed(points, t0))
    ensures TwoTimes(Observed(points, t1)) && VarX(Observed(points, t0)) > 0.0 && VarX(Observed(points, t1)) > 0.0
    ensures Slope(Observed(points, t1)) == Slope(Observed(points, t0))
  {
    hide VarX, Slope, Intercept, Observed;
    var s, s' := Observed(points, t0), Observed(points, t1);
    ObservedMoved(points, t0, t1);
    var i, j :| 0 <= i < |s| && 0 <= j < |s| && s[i].x != s[j].x;
    assert s'[i].x != s'[j].x;
    VarXPositive(s);
    VarXPositive(s');
    SlopeIndependent(s, s', (t0 - t1) as real / 1000.0);
  }

  /** The least-squares line through the points; none (a NaN) unless two of them differ in time. */
  method LinearRegression(points: seq<Point>, interceptTime: int) returns (r: Option<(real, real)>)
    ensures r.Some? <==> TwoTimes(Observed(points, interceptTime))
    ensures r.Some? ==> forall a, b :: Err(Observed(points, interceptTime), r.value.0, r.value.1) <= Err(Observed(points, interceptTime), a, b)
    ensures r.Some? ==> VarX(Observed(points, interceptTime)) > 0.0
    ensures r.Some? ==> r.value == (Slope(Observed(points, interceptTime)), Intercept(Observed(points, interceptTime)))
  {
    ghost var s := Observed(points, interceptTime);
    hide Err, Centred, ThroughMeans;
    var n, sumX, sumY, sumXY, sumX2 := AddUp(points, interceptTime);
    if n == 0.0 {
      assert !TwoTimes(s);
      return None;
    }
    VarXPositive(s);
    var covXY := Centred(sumXY, sumX, sumY, n);
    var varX := Centred(sumX2, sumX, sumX, n);
    if varX == 0.0 {
      return None;
    }
    var slope := covXY / varX;
    var intercept := ThroughMeans(sumX, sumY, n, slope);
    forall a, b ensures Err(s, slope, intercept) <= Err(s, a, b) {
      FittedIsBest(s, a, b);
    }
    return Some((slope, intercept));
  }

  method AddUp(points: seq<Point>, interceptTime: int) returns (n: real, sumX: real, sumY: real, sumXY: real, sumX2: real)
    ensures var s := Observed(points, interceptTime);
      n == |s| as real && sumX == SumX(s) && sumY == SumY(s) && sumXY == SumXY(s) && sumX2 == SumX2(s)
  {
    ghost var s := Observed(points, interceptTime);
    n, sumX, sumY, sumXY, sumX2 := 0.0, 0.0, 0.0, 0.0, 0.0;
    for i := 0 to |points|
      invariant n == i as real
      invariant sumX == SumX(s[..i]) && sumY == SumY(s[..i]) && sumXY == SumXY(s[..i]) && sumX2 == SumX2(s[..i])
    {
      var x := (points[i].t - interceptTime) as real / 1000.0;
      assert s[..i + 1][..i] == s[..i] && s[..i + 1][i] == Obs(x, points[i].v);
      n := n + 1.0;
      sumY := sumY + points[i].v;
      sumX := sumX + x;
      sumXY := sumXY + x * points[i].v;
      sumX2 := sumX2 + x * x;
    }
    assert s[..|points|] == s;
  }
}
