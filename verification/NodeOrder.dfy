/** The operations of an expression node do not depend on the order in which the
    samples of their arguments come. */
module NodeOrder {
  import opened Common
  import opened NodeHelper
  import opened PromExpr
  import Quantile

  /** What a function picks from the samples of a list. */
  ghost function Picked<U>(vec: seq<VectorSample>, g: VectorSample -> Option<U>): seq<U> {
    if vec == [] then []
    else Picked(vec[..|vec| - 1], g) + Pick(g(vec[|vec| - 1]))
  }

  function Pick<U>(o: Option<U>): seq<U> {
    match o
    case None => []
    case Some(u) => [u]
  }

  lemma {:induction false} PickedJoin<U>(a: seq<VectorSample>, b: seq<VectorSample>, g: VectorSample -> Option<U>)
    ensures Picked(a + b, g) == Picked(a, g) + Picked(b, g)
  {
    hide Pick;
    if b == [] {
      assert a + b == a;
    } else {
      var n := |b| - 1;
      PickedJoin(a, b[..n], g);
      assert b == b[..n] + [b[n]];
      Regroup(a, b[..n], [b[n]]);
      PickedNext(a + b[..n], b[n], g);
      Regroup(Picked(a, g), Picked(b[..n], g), Pick(g(b[n])));
    }
  }

  /** A permutation of the samples gives a permutation of what is picked. */
  lemma {:induction false} PickedPermutation<U>(a: seq<VectorSample>, b: seq<VectorSample>, g: VectorSample -> Option<U>)
    requires multiset(a) == multiset(b)
    ensures multiset(Picked(a, g)) == multiset(Picked(b, g))
  {
    if a == [] {
      assert |b| == |multiset(b)| == 0;
    } else {
      var n := |a| - 1;
      assert a[n] in multiset(b);
      var k :| 0 <= k < |b| && b[k] == a[n];
      WithoutOne(a, b, k);
      PickedPermutation(a[..n], b[..k] + b[k + 1..], g);
      PickedWithout(b, k, g);
    }
  }

  lemma WithoutOne(a: seq<VectorSample>, b: seq<VectorSample>, k: nat)
    requires multiset(a) == multiset(b) && k < |b| && a != [] && b[k] == a[|a| - 1]
    ensures multiset(a[..|a| - 1]) == multiset(b[..k] + b[k + 1..])
  {
    assert a == a[..|a| - 1] + [b[k]];
    Around(b, k);
    MiddleOut(b[..k], [b[k]], b[k + 1..]);
    assert multiset(a[..|a| - 1]) == multiset(a) - multiset([b[k]]);
    assert multiset(b[..k] + b[k + 1..]) == multiset(b) - multiset([b[k]]);
  }

  lemma PickedWithout<U>(b: seq<VectorSample>, k: nat, g: VectorSample -> Option<U>)
    requires k < |b|
    ensures multiset(Picked(b, g)) == multiset(Picked(b[..k] + b[k + 1..], g)) + multiset(Pick(g(b[k])))
  {
    hide Pick;
    PickedSplit(b, k, g);
    PickedJoin(b[..k], b[k + 1..], g);
    MiddleOut(Picked(b[..k], g), Pick(g(b[k])), Picked(b[k + 1..], g));
  }

  lemma PickedSplit<U>(b: seq<VectorSample>, k: nat, g: VectorSample -> Option<U>)
    requires k < |b|
    ensures Picked(b, g) == Picked(b[..k], g) + Pick(g(b[k])) + Picked(b[k + 1..], g)
  {
    hide Pick, Picked;
    Around(b, k);
    PickedJoin(b[..k] + [b[k]], b[k + 1..], g);
    PickedNext(b[..k], b[k], g);
  }

  lemma Around<U>(b: seq<U>, k: nat)
    requires k < |b|
    ensures b == b[..k] + [b[k]] + b[k + 1..]
  {
  }

  lemma Regroup<U>(p: seq<U>, q: seq<U>, r: seq<U>)
    ensures p + q + r == p + (q + r)
  {
  }

  lemma PickedNext<U>(a: seq<VectorSample>, x: VectorSample, g: VectorSample -> Option<U>)
    ensures Picked(a + [x], g) == Picked(a, g) + Pick(g(x))
  {
    hide Pick;
    assert (a + [x])[..|a + [x]| - 1] == a;
  }

  lemma MiddleOut<U>(p: seq<U>, r: seq<U>, q: seq<U>)
    ensures multiset(p + r + q) == multiset(p + q) + multiset(r)
  {
  }

  lemma {:induction false} PickedSame<U>(vec: seq<VectorSample>, g: VectorSample -> Option<U>, h: VectorSample -> Option<U>)
    requires forall x :: g(x) == h(x)
    ensures Picked(vec, g) == Picked(vec, h)
  {
    if vec != [] {
      PickedSame(vec[..|vec| - 1], g, h);
    }
  }

  // ----- lists of a vector -----

  function Metrics(s: seq<VectorSample>): set<Metric> {
    set i | 0 <= i < |s| :: s[i].metric
  }

  lemma MetricsNext(s: seq<VectorSample>)
    requires s != []
    ensures Metrics(s) == Metrics(s[..|s| - 1]) + {s[|s| - 1].metric}
  {
    var n := |s| - 1;
    assert forall i :: 0 <= i < n ==> s[..n][i] == s[i];
  }

  /** A list is without equal label sets exactly if it has as many as it is long. */
  lemma {:induction false} UniqueByCount(s: seq<VectorSample>)
    ensures |Metrics(s)| <= |s|
    ensures Unique(s) <==> |Metrics(s)| == |s|
  {
    if s != [] {
      var n := |s| - 1;
      UniqueByCount(s[..n]);
      MetricsNext(s);
      UniqueNext(s);
    }
  }

  lemma UniqueNext(s: seq<VectorSample>)
    requires s != []
    ensures Unique(s) <==> Unique(s[..|s| - 1]) && s[|s| - 1].metric !in Metrics(s[..|s| - 1])
  {
    var n := |s| - 1;
    assert forall i :: 0 <= i < n ==> s[..n][i] == s[i];
  }

  lemma SameMetrics(a: seq<VectorSample>, b: seq<VectorSample>)
    requires multiset(a) == multiset(b)
    ensures Metrics(a) <= Metrics(b)
  {
    forall m | m in Metrics(a) ensures m in Metrics(b) {
      var i :| 0 <= i < |a| && a[i].metric == m;
      assert a[i] in multiset(b);
    }
  }

  lemma {:induction false} InVector(s: seq<VectorSample>, x: VectorSample)
    requires Unique(s)
    ensures x in s <==> x.metric in ToVector(s) && ToVector(s)[x.metric] == x.v
  {
    if s != [] {
      var n := |s| - 1;
      InVector(s[..n], x);
      MetricsOf(s[..n]);
      assert s == s[..n] + [s[n]];
      VectorMetric(s[..n], s[n].metric);
      assert s[n].metric !in ToVector(s[..n]);
    }
  }

  lemma {:induction false} VectorMetric(s: seq<VectorSample>, m: Metric)
    ensures m in ToVector(s) <==> m in Metrics(s)
  {
    if s != [] {
      VectorMetric(s[..|s| - 1], m);
      MetricsNext(s);
    }
  }

  /** A permutation is a list of the same vector. */
  lemma PermutationSame(a: seq<VectorSample>, b: seq<VectorSample>)
    requires multiset(a) == multiset(b)
    ensures Unique(a) <==> Unique(b)
    ensures Unique(a) ==> ToVector(a) == ToVector(b)
  {
    hide Unique, ToVector, Metrics;
    SameMetrics(a, b);
    SameMetrics(b, a);
    assert Metrics(a) == Metrics(b);
    UniqueByCount(a);
    UniqueByCount(b);
    assert |a| == |multiset(a)| == |b|;
    if Unique(a) {
      forall m ensures m in ToVector(a) <==> m in ToVector(b) {
        VectorMetric(a, m);
        VectorMetric(b, m);
      }
      forall m | m in ToVector(a) ensures ToVector(a)[m] == ToVector(b)[m] {
        var x := VectorSample(m, ToVector(a)[m]);
        InVector(a, x);
        InVector(b, x);
        assert x in multiset(a);
      }
    }
  }

  /** Two lists of one vector, which are permutations of each other. */
  ghost predicate Relisted(a: seq<VectorSample>, b: seq<VectorSample>) {
    Unique(a) && Unique(b) && ToVector(a) == ToVector(b)
  }

  lemma {:induction false} CountInUnique(s: seq<VectorSample>, x: VectorSample)
    requires Unique(s)
    ensures multiset(s)[x] == if x in s then 1 else 0
  {
    if s != [] {
      var n := |s| - 1;
      CountInUnique(s[..n], x);
      assert s == s[..n] + [s[n]];
    }
  }

  lemma RelistedMembers(a: seq<VectorSample>, b: seq<VectorSample>, x: VectorSample)
    requires Relisted(a, b)
    ensures x in a <==> x in b
  {
    hide Unique, ToVector;
    InVector(a, x);
    InVector(b, x);
  }

  lemma RelistedPermutation(a: seq<VectorSample>, b: seq<VectorSample>)
    requires Relisted(a, b)
    ensures multiset(a) == multiset(b)
  {
    hide Unique, ToVector;
    forall x: VectorSample ensures multiset(a)[x] == multiset(b)[x] {
      RelistedMembers(a, b, x);
      CountInUnique(a, x);
      CountInUnique(b, x);
    }
  }

  /** No two samples stand in a relation. */
  ghost predicate NoPair(s: seq<VectorSample>, p: (VectorSample, VectorSample) -> bool) {
    forall i, j :: 0 <= i < j < |s| ==> !p(s[i], s[j])
  }

  lemma NoPairRelisted(a: seq<VectorSample>, b: seq<VectorSample>, p: (VectorSample, VectorSample) -> bool)
    requires Relisted(a, b) && NoPair(a, p) && forall x, y :: p(x, y) ==> p(y, x)
    ensures NoPair(b, p)
  {
    hide ToVector;
    forall i, j | 0 <= i < j < |b| ensures !p(b[i], b[j]) {
      RelistedMembers(a, b, b[i]);
      RelistedMembers(a, b, b[j]);
      var i' :| 0 <= i' < |a| && a[i'] == b[i];
      var j' :| 0 <= j' < |a| && a[j'] == b[j];
      assert i' != j';
    }
  }

  // ----- the operations -----

  lemma OneSideRelisted(a: seq<VectorSample>, b: seq<VectorSample>, matching: Matching)
    requires Relisted(a, b) && OneSideUnique(a, matching)
    ensures OneSideUnique(b, matching)
  {
    hide Signature, ToVector, Unique;
    var p := (x: VectorSample, y: VectorSample) => Signature(x.metric, matching) == Signature(y.metric, matching);
    assert NoPair(a, p);
    NoPairRelisted(a, b, p);
    assert forall i, j :: 0 <= i < j < |b| ==> !p(b[i], b[j]);
  }

  lemma ContributionRelisted(x: VectorSample, a: seq<VectorSample>, b: seq<VectorSample>, op: Op, matching: Matching, returnBool: bool)
    requires Relisted(a, b) && OneSideUnique(a, matching) && OneSideUnique(b, matching)
    ensures Contribution(x, a, op, matching, returnBool) == Contribution(x, b, op, matching, returnBool)
  {
    forall y | Contribution(x, a, op, matching, returnBool) == Some(y) ensures Contribution(x, b, op, matching, returnBool) == Some(y) {
      ContributionCarries(x, a, b, op, matching, returnBool, y);
    }
    forall y | Contribution(x, b, op, matching, returnBool) == Some(y) ensures Contribution(x, a, op, matching, returnBool) == Some(y) {
      ContributionCarries(x, b, a, op, matching, returnBool, y);
    }
    hide *;
  }

  lemma ContributionCarries(x: VectorSample, a: seq<VectorSample>, b: seq<VectorSample>, op: Op, matching: Matching, returnBool: bool, y: VectorSample)
    requires Relisted(a, b) && OneSideUnique(a, matching) && OneSideUnique(b, matching)
    requires Contribution(x, a, op, matching, returnBool) == Some(y)
    ensures Contribution(x, b, op, matching, returnBool) == Some(y)
  {
    hide Match, Relisted, OneSideUnique, Contribution;
    ContributionExactly(x, a, op, matching, returnBool, y);
    ContributionExactly(x, b, op, matching, returnBool, y);
    var j :| 0 <= j < |a| && Match(x, a[j], y, op, matching, returnBool);
    RelistedMembers(a, b, a[j]);
  }

  lemma ConflictRelisted(a: seq<VectorSample>, b: seq<VectorSample>, rhs: seq<VectorSample>, rhs': seq<VectorSample>, op: Op, matching: Matching, returnBool: bool)
    requires Relisted(a, b) && Relisted(rhs, rhs') && OneSideUnique(rhs, matching) && OneSideUnique(rhs', matching)
    requires NoConflict(a, rhs, op, matching, returnBool)
    ensures NoConflict(b, rhs', op, matching, returnBool)
  {
    hide Signature, ToVector, Unique, Relisted, OneSideUnique, Contribution;
    var p := (x: VectorSample, y: VectorSample) => Conflict(x, y, rhs, op, matching, returnBool);
    assert NoPair(a, p);
    NoPairRelisted(a, b, p);
    forall i, j | 0 <= i < j < |b| ensures !Conflict(b[i], b[j], rhs', op, matching, returnBool) {
      assert !p(b[i], b[j]);
      ContributionRelisted(b[i], rhs, rhs', op, matching, returnBool);
      ContributionRelisted(b[j], rhs, rhs', op, matching, returnBool);
    }
  }

  lemma {:induction false} ContributionsPicked(lhs: seq<VectorSample>, rhs: seq<VectorSample>, op: Op, matching: Matching, returnBool: bool)
    ensures Contributions(lhs, rhs, op, matching, returnBool) == Picked(lhs, x => Contribution(x, rhs, op, matching, returnBool))
  {
    hide Contribution;
    if lhs != [] {
      ContributionsPicked(lhs[..|lhs| - 1], rhs, op, matching, returnBool);
    }
  }

  lemma ContributionsRelisted(a: seq<VectorSample>, b: seq<VectorSample>, rhs: seq<VectorSample>, rhs': seq<VectorSample>, op: Op, matching: Matching, returnBool: bool)
    requires Relisted(a, b) && Relisted(rhs, rhs') && OneSideUnique(rhs, matching) && OneSideUnique(rhs', matching)
    ensures multiset(Contributions(a, rhs, op, matching, returnBool)) == multiset(Contributions(b, rhs', op, matching, returnBool))
  {
    hide Relisted, OneSideUnique, Contribution, Contributions, Picked;
    var g := x => Contribution(x, rhs, op, matching, returnBool);
    var h := x => Contribution(x, rhs', op, matching, returnBool);
    forall x ensures g(x) == h(x) {
      ContributionRelisted(x, rhs, rhs', op, matching, returnBool);
    }
    ContributionsPicked(a, rhs, op, matching, returnBool);
    ContributionsPicked(b, rhs', op, matching, returnBool);
    RelistedPermutation(a, b);
    PickedPermutation(a, b, g);
    PickedSame(b, g, h);
  }

  lemma {:induction false} ScalarOpPicked(vec: seq<VectorSample>, scalar: real, op: Op, swap: bool, returnBool: bool)
    ensures ScalarOpSpec(vec, scalar, op, swap, returnBool) == Picked(vec, x => ScalarResult(x, scalar, op, swap, returnBool))
  {
    hide ScalarResult;
    if vec != [] {
      ScalarOpPicked(vec[..|vec| - 1], scalar, op, swap, returnBool);
    }
  }

  lemma ScalarOpRelisted(a: seq<VectorSample>, b: seq<VectorSample>, scalar: real, op: Op, swap: bool, returnBool: bool)
    requires Relisted(a, b)
    ensures multiset(ScalarOpSpec(a, scalar, op, swap, returnBool)) == multiset(ScalarOpSpec(b, scalar, op, swap, returnBool))
  {
    hide Relisted, ScalarResult, ScalarOpSpec, Picked;
    ScalarOpPicked(a, scalar, op, swap, returnBool);
    ScalarOpPicked(b, scalar, op, swap, returnBool);
    RelistedPermutation(a, b);
    PickedPermutation(a, b, x => ScalarResult(x, scalar, op, swap, returnBool));
  }

  lemma SignaturesRelisted(a: seq<VectorSample>, b: seq<VectorSample>, matching: Matching)
    requires Relisted(a, b)
    ensures Signatures(a, matching) <= Signatures(b, matching)
  {
    hide Signature, Relisted;
    forall sig | sig in Signatures(a, matching) ensures sig in Signatures(b, matching) {
      var i :| 0 <= i < |a| && Signature(a[i].metric, matching) == sig;
      RelistedMembers(a, b, a[i]);
    }
  }

  function Kept(x: VectorSample, sigs: set<Metric>, present: bool, matching: Matching): Option<VectorSample> {
    if (Signature(x.metric, matching) in sigs) == present then Some(x) else None
  }

  lemma {:induction false} FilteredPicked(vec: seq<VectorSample>, sigs: set<Metric>, present: bool, matching: Matching)
    ensures Filtered(vec, sigs, present, matching) == Picked(vec, x => Kept(x, sigs, present, matching))
  {
    hide Signature;
    if vec != [] {
      FilteredPicked(vec[..|vec| - 1], sigs, present, matching);
    }
  }

  lemma FilteredRelisted(a: seq<VectorSample>, b: seq<VectorSample>, c: seq<VectorSample>, d: seq<VectorSample>, present: bool, matching: Matching)
    requires Relisted(a, b) && Relisted(c, d)
    ensures multiset(Filtered(a, Signatures(c, matching), present, matching)) == multiset(Filtered(b, Signatures(d, matching), present, matching))
  {
    hide Relisted, Signatures, Filtered, Picked, Kept;
    SignaturesRelisted(c, d, matching);
    RelistedSymmetric(c, d);
    SignaturesRelisted(d, c, matching);
    var sigs := Signatures(c, matching);
    assert sigs == Signatures(d, matching);
    FilteredPicked(a, sigs, present, matching);
    FilteredPicked(b, sigs, present, matching);
    RelistedPermutation(a, b);
    PickedPermutation(a, b, x => Kept(x, sigs, present, matching));
  }

  lemma RelistedSymmetric(a: seq<VectorSample>, b: seq<VectorSample>)
    requires Relisted(a, b)
    ensures Relisted(b, a)
  {
  }

  function BucketIn(x: VectorSample, m: Metric, parse: ParseBound): Option<Quantile.Bucket> {
    if WithoutBucket(x.metric) == m then BucketOf(x, parse) else None
  }

  lemma {:induction false} BucketsPicked(vec: seq<VectorSample>, m: Metric, parse: ParseBound)
    ensures BucketsFor(vec, m, parse) == Picked(vec, x => BucketIn(x, m, parse))
  {
    hide BucketOf, WithoutBucket;
    if vec != [] {
      BucketsPicked(vec[..|vec| - 1], m, parse);
    }
  }

  lemma QuantilesRelisted(q: real, a: seq<VectorSample>, b: seq<VectorSample>, parse: ParseBound, asFloat: Quantile.Result -> real)
    requires Relisted(a, b)
    ensures QuantileVector(q, a, parse, asFloat) == QuantileVector(q, b, parse, asFloat)
  {
    hide Relisted, BucketsFor, Picked, BucketIn, Histograms, Quantile.QuantileOfBuckets;
    RelistedPermutation(a, b);
    forall m ensures multiset(BucketsFor(a, m, parse)) == multiset(BucketsFor(b, m, parse)) {
      BucketsPicked(a, m, parse);
      BucketsPicked(b, m, parse);
      PickedPermutation(a, b, x => BucketIn(x, m, parse));
    }
    forall m ensures m in Histograms(a, parse) <==> m in Histograms(b, parse) {
      HistogramsHaveBuckets(a, parse, m);
      HistogramsHaveBuckets(b, parse, m);
      assert |BucketsFor(a, m, parse)| == |multiset(BucketsFor(a, m, parse))| == |BucketsFor(b, m, parse)|;
    }
    forall m ensures Quantile.QuantileOfBuckets(q, BucketsFor(a, m, parse)) == Quantile.QuantileOfBuckets(q, BucketsFor(b, m, parse)) {
      Quantile.QuantileOfPermutation(q, BucketsFor(a, m, parse), BucketsFor(b, m, parse));
    }
  }
}
