/** The helper that carries caches across the steps of one expression node, and
    the vector operations that use it: whatever the caches hold from earlier
    steps, the result is that of the operation on its arguments alone. */
module NodeHelper {
  import opened Common
  import opened PromExpr
  import Quantile

  /** Set operators match many to many. */
  datatype Cardinality = OneToOne | ManyToOne | OneToMany | ManyToMany

  datatype Matching = Matching(card: Cardinality, on: bool, names: set<string>, taken: seq<string>)

  /** A binary operator on numbers: its value, and whether the element is kept. */
  datatype Op = Op(elem: (real, real) -> (real, bool), dropsName: bool, comparison: bool)

  /** The labels two samples must share to match. */
  function Signature(m: Metric, matching: Matching): Metric {
    if matching.on then map l | l in m && l in matching.names :: m[l]
    else m - (matching.names + {METRIC_NAME})
  }

  /** Labels taken over from the "one" side. */
  function Included(m: Metric, rhs: Metric, taken: seq<string>): Metric
    decreases |taken|
  {
    if taken == [] then m
    else
      var l := taken[0];
      Included(if l in rhs && rhs[l] != "" then m[l := rhs[l]] else m - {l}, rhs, taken[1..])
  }

  function ResultMetric(lhs: Metric, rhs: Metric, op: Op, matching: Matching): Metric {
    var named := if op.dropsName then DropName(lhs) else lhs;
    var matched :=
      if !matching.card.OneToOne? then named
      else if matching.on then map l | l in named && l in matching.names :: named[l]
      else named - matching.names;
    Included(matched, rhs, matching.taken)
  }

  /** The partner of a sample on the "one" side: the last with its signature. */
  function Partner(sig: Metric, rhs: seq<VectorSample>, matching: Matching): Option<VectorSample> {
    if rhs == [] then None
    else if Signature(rhs[|rhs| - 1].metric, matching) == sig then Some(rhs[|rhs| - 1])
    else Partner(sig, rhs[..|rhs| - 1], matching)
  }

  /** What one sample of the "many" side contributes. */
  function Contribution(ls: VectorSample, rhs: seq<VectorSample>, op: Op, matching: Matching, returnBool: bool): Option<VectorSample> {
    match Partner(Signature(ls.metric, matching), rhs, matching)
    case None => None
    case Some(rs) => Combined(ls, rs, op, matching, returnBool)
  }

  /** What two matching samples give, nothing if a comparison filters them out. */
  function Combined(ls: VectorSample, rs: VectorSample, op: Op, matching: Matching, returnBool: bool): Option<VectorSample> {
    var (value, keep) := if matching.card.OneToMany? then op.elem(rs.v, ls.v) else op.elem(ls.v, rs.v);
    var metric := ResultMetric(ls.metric, rs.metric, op, matching);
    if returnBool then Some(VectorSample(metric, if keep then 1.0 else 0.0))
    else if keep then Some(VectorSample(metric, value))
    else None
  }

  function Contributions(lhs: seq<VectorSample>, rhs: seq<VectorSample>, op: Op, matching: Matching, returnBool: bool): seq<VectorSample> {
    if lhs == [] then []
    else
      var before := Contributions(lhs[..|lhs| - 1], rhs, op, matching, returnBool);
      match Contribution(lhs[|lhs| - 1], rhs, op, matching, returnBool)
      case None => before
      case Some(s) => before + [s]
  }

  /** The "one" side has no two samples with the same signature. */
  ghost predicate OneSideUnique(rhs: seq<VectorSample>, matching: Matching) {
    forall i, j :: 0 <= i < j < |rhs| ==> Signature(rhs[i].metric, matching) != Signature(rhs[j].metric, matching)
  }

  /** Two contributing samples that may not both be there. */
  ghost predicate Conflict(a: VectorSample, b: VectorSample, rhs: seq<VectorSample>, op: Op, matching: Matching, returnBool: bool) {
    var ca, cb := Contribution(a, rhs, op, matching, returnBool), Contribution(b, rhs, op, matching, returnBool);
    && ca.Some? && cb.Some?
    && Signature(a.metric, matching) == Signature(b.metric, matching)
    && (matching.card.OneToOne? || ca.value.metric == cb.value.metric)
  }

  ghost predicate NoConflict(lhs: seq<VectorSample>, rhs: seq<VectorSample>, op: Op, matching: Matching, returnBool: bool) {
    forall i, j :: 0 <= i < j < |lhs| ==> !Conflict(lhs[i], lhs[j], rhs, op, matching, returnBool)
  }

  lemma {:induction false} PartnerUnique(rhs: seq<VectorSample>, matching: Matching, i: nat)
    requires i < |rhs| && OneSideUnique(rhs, matching)
    ensures Partner(Signature(rhs[i].metric, matching), rhs, matching) == Some(rhs[i])
  {
    hide Signature;
    if i < |rhs| - 1 {
      PartnerUnique(rhs[..|rhs| - 1], matching, i);
    }
  }

  lemma {:induction false} PartnerNone(sig: Metric, rhs: seq<VectorSample>, matching: Matching)
    requires forall i :: 0 <= i < |rhs| ==> Signature(rhs[i].metric, matching) != sig
    ensures Partner(sig, rhs, matching) == None
  {
    hide Signature;
    if rhs != [] {
      PartnerNone(sig, rhs[..|rhs| - 1], matching);
    }
  }

  // ----- matching said of the labels -----

  /** Both lack the label, or both have it with the same value. */
  predicate AgreeOn(a: Metric, b: Metric, l: string) {
    if l in a then l in b && a[l] == b[l] else l !in b
  }

  /** With `on`, two label sets match if they agree on every label listed; without
      it, if they agree on every label that is not listed, apart from the name. */
  ghost predicate Agree(a: Metric, b: Metric, matching: Matching) {
    forall l :: (if matching.on then l in matching.names else l !in matching.names && l != "__name__") ==> AgreeOn(a, b, l)
  }

  /** Equal signatures mean exactly that. */
  lemma SignatureExactly(a: Metric, b: Metric, matching: Matching)
    ensures Signature(a, matching) == Signature(b, matching) <==> Agree(a, b, matching)
  {
    var x, y := Signature(a, matching), Signature(b, matching);
    if x == y {
      forall l | (if matching.on then l in matching.names else l !in matching.names && l != "__name__") ensures AgreeOn(a, b, l) {
        assert l in x <==> l in a;
        assert l in y <==> l in b;
      }
    }
    if Agree(a, b, matching) {
      forall l ensures (l in x <==> l in y) && (l in x ==> x[l] == y[l]) {
        assert l in x ==> AgreeOn(a, b, l);
        assert l in y ==> AgreeOn(a, b, l);
      }
    }
  }

  /** The value of one label of a result: a label taken over comes from the "one"
      side, any other from the "many" side unless the operator drops it as the
      name or one-to-one matching leaves it out. */
  function ResultLabel(many: Metric, one: Metric, op: Op, matching: Matching, l: string): Option<string> {
    if l in matching.taken then (if l in one && one[l] != "" then Some(one[l]) else None)
    else if l !in many || (op.dropsName && l == "__name__") then None
    else if matching.card.OneToOne? && (l in matching.names) != matching.on then None
    else Some(many[l])
  }

  ghost predicate HasLabels(m: Metric, many: Metric, one: Metric, op: Op, matching: Matching) {
    forall l :: (if l in m then Some(m[l]) else None) == ResultLabel(many, one, op, matching, l)
  }

  lemma {:induction false} IncludedLabel(m: Metric, rhs: Metric, taken: seq<string>, l: string)
    ensures var r := Included(m, rhs, taken);
      (if l in r then Some(r[l]) else None) ==
        if l in taken then (if l in rhs && rhs[l] != "" then Some(rhs[l]) else None)
        else if l in m then Some(m[l]) else None
    decreases |taken|
  {
    if taken != [] {
      var t := taken[0];
      var m' := if t in rhs && rhs[t] != "" then m[t := rhs[t]] else m - {t};
      IncludedLabel(m', rhs, taken[1..], l);
      assert l in taken <==> l == t || l in taken[1..];
    }
  }

  lemma ResultLabelIs(lhs: Metric, rhs: Metric, op: Op, matching: Matching, l: string)
    ensures var r := ResultMetric(lhs, rhs, op, matching);
      (if l in r then Some(r[l]) else None) == ResultLabel(lhs, rhs, op, matching, l)
  {
    hide Included;
    var named := if op.dropsName then DropName(lhs) else lhs;
    var matched :=
      if !matching.card.OneToOne? then named
      else if matching.on then map l | l in named && l in matching.names :: named[l]
      else named - matching.names;
    IncludedLabel(matched, rhs, matching.taken, l);
  }

  /** The labels of a result are exactly these. */
  lemma ResultLabels(m: Metric, lhs: Metric, rhs: Metric, op: Op, matching: Matching)
    ensures m == ResultMetric(lhs, rhs, op, matching) <==> HasLabels(m, lhs, rhs, op, matching)
  {
    hide ResultMetric, ResultLabel;
    var r := ResultMetric(lhs, rhs, op, matching);
    forall l ensures (if l in r then Some(r[l]) else None) == ResultLabel(lhs, rhs, op, matching, l) {
      ResultLabelIs(lhs, rhs, op, matching, l);
    }
    if HasLabels(m, lhs, rhs, op, matching) {
      forall l ensures (l in m <==> l in r) && (l in m ==> m[l] == r[l]) {
        assert (if l in m then Some(m[l]) else None) == ResultLabel(lhs, rhs, op, matching, l);
      }
    }
  }

  /** What a sample of the left operand and one of the right give: they agree, the
      operator gets them in this order, and a comparison that fails gives nothing,
      or a zero if it is asked for a boolean. */
  ghost predicate Pairs(l: VectorSample, r: VectorSample, x: VectorSample, op: Op, matching: Matching, returnBool: bool) {
    var (value, keep) := op.elem(l.v, r.v);
    && Agree(l.metric, r.metric, matching)
    && (returnBool || keep)
    && x.v == (if !returnBool then value else if keep then 1.0 else 0.0)
    && if matching.card.OneToMany? then HasLabels(x.metric, r.metric, l.metric, op, matching)
       else HasLabels(x.metric, l.metric, r.metric, op, matching)
  }

  ghost predicate Match(ls: VectorSample, rs: VectorSample, x: VectorSample, op: Op, matching: Matching, returnBool: bool) {
    Signature(ls.metric, matching) == Signature(rs.metric, matching) && Combined(ls, rs, op, matching, returnBool) == Some(x)
  }

  lemma MatchIsPair(ls: VectorSample, rs: VectorSample, x: VectorSample, op: Op, matching: Matching, returnBool: bool)
    ensures Match(ls, rs, x, op, matching, returnBool) <==>
      if matching.card.OneToMany? then Pairs(rs, ls, x, op, matching, returnBool) else Pairs(ls, rs, x, op, matching, returnBool)
  {
    hide Signature, Agree, ResultMetric, HasLabels;
    SignatureExactly(ls.metric, rs.metric, matching);
    SignatureExactly(rs.metric, ls.metric, matching);
    ResultLabels(x.metric, ls.metric, rs.metric, op, matching);
  }

  /** A sample that two samples, one of each operand, give together. */
  ghost predicate Joined(x: VectorSample, left: seq<VectorSample>, right: seq<VectorSample>, op: Op, matching: Matching, returnBool: bool) {
    exists i, j :: 0 <= i < |left| && 0 <= j < |right| && Pairs(left[i], right[j], x, op, matching, returnBool)
  }

  ghost predicate MatchJoined(x: VectorSample, lhs: seq<VectorSample>, rhs: seq<VectorSample>, op: Op, matching: Matching, returnBool: bool) {
    exists i, j :: 0 <= i < |lhs| && 0 <= j < |rhs| && Match(lhs[i], rhs[j], x, op, matching, returnBool)
  }

  lemma MatchJoinedIsJoined(x: VectorSample, lhs: seq<VectorSample>, rhs: seq<VectorSample>, op: Op, matching: Matching, returnBool: bool)
    ensures MatchJoined(x, lhs, rhs, op, matching, returnBool) <==>
      if matching.card.OneToMany? then Joined(x, rhs, lhs, op, matching, returnBool) else Joined(x, lhs, rhs, op, matching, returnBool)
  {
    hide Match, Pairs;
    forall i, j | 0 <= i < |lhs| && 0 <= j < |rhs|
      ensures Match(lhs[i], rhs[j], x, op, matching, returnBool) <==>
        if matching.card.OneToMany? then Pairs(rhs[j], lhs[i], x, op, matching, returnBool) else Pairs(lhs[i], rhs[j], x, op, matching, returnBool)
    {
      MatchIsPair(lhs[i], rhs[j], x, op, matching, returnBool);
    }
  }

  /** No two samples of the "one" side agree. */
  ghost predicate NoneAgree(one: seq<VectorSample>, matching: Matching) {
    forall i, j :: 0 <= i < j < |one| ==> !Agree(one[i].metric, one[j].metric, matching)
  }

  lemma UniqueIsNoneAgree(one: seq<VectorSample>, matching: Matching)
    ensures OneSideUnique(one, matching) <==> NoneAgree(one, matching)
  {
    hide Signature, Agree;
    forall i, j | 0 <= i < j < |one|
      ensures Signature(one[i].metric, matching) == Signature(one[j].metric, matching) <==> Agree(one[i].metric, one[j].metric, matching)
    {
      SignatureExactly(one[i].metric, one[j].metric, matching);
    }
  }

  /** Two samples of the "many" side that give outputs with the same sample of the
      other: too many for one-to-one matching, and otherwise if the labels are equal. */
  ghost predicate Compete(a: VectorSample, b: VectorSample, one: seq<VectorSample>, op: Op, matching: Matching, returnBool: bool) {
    exists k, x, y :: 0 <= k < |one| && CompeteFor(a, b, one[k], x, y, op, matching, returnBool)
  }

  ghost predicate CompeteFor(a: VectorSample, b: VectorSample, o: VectorSample, x: VectorSample, y: VectorSample, op: Op, matching: Matching, returnBool: bool) {
    && (if matching.card.OneToMany? then Pairs(o, a, x, op, matching, returnBool) && Pairs(o, b, y, op, matching, returnBool)
        else Pairs(a, o, x, op, matching, returnBool) && Pairs(b, o, y, op, matching, returnBool))
    && (matching.card.OneToOne? || x.metric == y.metric)
  }

  lemma ConflictExactly(a: VectorSample, b: VectorSample, one: seq<VectorSample>, op: Op, matching: Matching, returnBool: bool)
    requires OneSideUnique(one, matching)
    ensures Conflict(a, b, one, op, matching, returnBool) <==> Compete(a, b, one, op, matching, returnBool)
  {
    hide Signature, Pairs, Combined, Partner;
    if Compete(a, b, one, op, matching, returnBool) {
      var k, x, y :| 0 <= k < |one| && CompeteFor(a, b, one[k], x, y, op, matching, returnBool);
      MatchIsPair(a, one[k], x, op, matching, returnBool);
      MatchIsPair(b, one[k], y, op, matching, returnBool);
      PartnerUnique(one, matching, k);
    }
    if Conflict(a, b, one, op, matching, returnBool) {
      var k := PartnerAt(a, one, matching);
      var x, y := Combined(a, one[k], op, matching, returnBool).value, Combined(b, one[k], op, matching, returnBool).value;
      MatchIsPair(a, one[k], x, op, matching, returnBool);
      MatchIsPair(b, one[k], y, op, matching, returnBool);
      assert CompeteFor(a, b, one[k], x, y, op, matching, returnBool);
    }
  }

  lemma PartnerAt(a: VectorSample, one: seq<VectorSample>, matching: Matching) returns (k: nat)
    requires OneSideUnique(one, matching) && Partner(Signature(a.metric, matching), one, matching).Some?
    ensures k < |one| && Signature(one[k].metric, matching) == Signature(a.metric, matching)
    ensures Partner(Signature(a.metric, matching), one, matching) == Some(one[k])
  {
    hide Signature, Partner;
    if i :| 0 <= i < |one| && Signature(one[i].metric, matching) == Signature(a.metric, matching) {
      k := i;
      PartnerUnique(one, matching, i);
    } else {
      k := 0;
      PartnerNone(Signature(a.metric, matching), one, matching);
    }
  }

  ghost predicate NoneCompete(many: seq<VectorSample>, one: seq<VectorSample>, op: Op, matching: Matching, returnBool: bool) {
    forall i, j :: 0 <= i < j < |many| ==> !Compete(many[i], many[j], one, op, matching, returnBool)
  }

  lemma NoConflictExactly(many: seq<VectorSample>, one: seq<VectorSample>, op: Op, matching: Matching, returnBool: bool)
    requires OneSideUnique(one, matching)
    ensures NoConflict(many, one, op, matching, returnBool) <==> NoneCompete(many, one, op, matching, returnBool)
  {
    hide Conflict, Compete;
    forall i, j | 0 <= i < j < |many|
      ensures Conflict(many[i], many[j], one, op, matching, returnBool) <==> Compete(many[i], many[j], one, op, matching, returnBool)
    {
      ConflictExactly(many[i], many[j], one, op, matching, returnBool);
    }
  }

  /** A sample has an output exactly when its one partner exists and is not filtered out. */
  lemma ContributionExactly(ls: VectorSample, rhs: seq<VectorSample>, op: Op, matching: Matching, returnBool: bool, x: VectorSample)
    requires OneSideUnique(rhs, matching)
    ensures Contribution(ls, rhs, op, matching, returnBool) == Some(x) <==>
      exists j :: 0 <= j < |rhs| && Match(ls, rhs[j], x, op, matching, returnBool)
  {
    hide Signature, Combined, Partner;
    if j :| 0 <= j < |rhs| && Signature(rhs[j].metric, matching) == Signature(ls.metric, matching) {
      PartnerUnique(rhs, matching, j);
      forall k | 0 <= k < |rhs| && Match(ls, rhs[k], x, op, matching, returnBool) ensures k == j {
      }
    } else {
      PartnerNone(Signature(ls.metric, matching), rhs, matching);
    }
  }

  /** The contributions are exactly what matching samples give together. */
  lemma {:induction false} ContributionsAreJoin(lhs: seq<VectorSample>, rhs: seq<VectorSample>, op: Op, matching: Matching, returnBool: bool, x: VectorSample)
    requires OneSideUnique(rhs, matching)
    ensures x in Contributions(lhs, rhs, op, matching, returnBool) <==> MatchJoined(x, lhs, rhs, op, matching, returnBool)
  {
    hide Match, OneSideUnique, Contribution;
    if lhs != [] {
      var n := |lhs| - 1;
      ContributionsAreJoin(lhs[..n], rhs, op, matching, returnBool, x);
      ContributionExactly(lhs[n], rhs, op, matching, returnBool, x);
      JoinedLast(x, lhs, rhs, op, matching, returnBool);
    }
  }

  lemma JoinedLast(x: VectorSample, lhs: seq<VectorSample>, rhs: seq<VectorSample>, op: Op, matching: Matching, returnBool: bool)
    requires lhs != []
    ensures MatchJoined(x, lhs, rhs, op, matching, returnBool) <==>
      MatchJoined(x, lhs[..|lhs| - 1], rhs, op, matching, returnBool)
      || exists j :: 0 <= j < |rhs| && Match(lhs[|lhs| - 1], rhs[j], x, op, matching, returnBool)
  {
    hide Match;
    var n := |lhs| - 1;
    if MatchJoined(x, lhs[..n], rhs, op, matching, returnBool) {
      var i, j :| 0 <= i < n && 0 <= j < |rhs| && Match(lhs[..n][i], rhs[j], x, op, matching, returnBool);
      assert Match(lhs[i], rhs[j], x, op, matching, returnBool);
    }
    if MatchJoined(x, lhs, rhs, op, matching, returnBool) {
      var i, j :| 0 <= i < |lhs| && 0 <= j < |rhs| && Match(lhs[i], rhs[j], x, op, matching, returnBool);
      assert i < n ==> Match(lhs[..n][i], rhs[j], x, op, matching, returnBool);
    }
  }

  // ----- set operators -----

  function Signatures(vec: seq<VectorSample>, matching: Matching): set<Metric> {
    set i | 0 <= i < |vec| :: Signature(vec[i].metric, matching)
  }

  /** The samples whose signature is, or is not, among those given. */
  function Filtered(vec: seq<VectorSample>, sigs: set<Metric>, present: bool, matching: Matching): seq<VectorSample> {
    if vec == [] then []
    else
      var last := vec[|vec| - 1];
      Filtered(vec[..|vec| - 1], sigs, present, matching) + if (Signature(last.metric, matching) in sigs) == present then [last] else []
  }

  /** Whether a sample of the other side agrees. */
  ghost predicate HasMatch(m: Metric, other: seq<VectorSample>, matching: Matching) {
    exists j :: 0 <= j < |other| && Agree(m, other[j].metric, matching)
  }

  lemma SignatureHasMatch(m: Metric, other: seq<VectorSample>, matching: Matching)
    ensures Signature(m, matching) in Signatures(other, matching) <==> HasMatch(m, other, matching)
  {
    hide Signature, Agree;
    forall j | 0 <= j < |other|
      ensures Signature(m, matching) == Signature(other[j].metric, matching) <==> Agree(m, other[j].metric, matching)
    {
      SignatureExactly(m, other[j].metric, matching);
    }
  }

  /** The samples kept are those with, or without, one that agrees. */
  lemma {:induction false} FilteredExactly(vec: seq<VectorSample>, other: seq<VectorSample>, present: bool, matching: Matching, x: VectorSample)
    ensures x in Filtered(vec, Signatures(other, matching), present, matching) <==> x in vec && (HasMatch(x.metric, other, matching) == present)
  {
    hide Signature, Signatures, HasMatch;
    if vec != [] {
      var n := |vec| - 1;
      FilteredExactly(vec[..n], other, present, matching, x);
      SignatureHasMatch(vec[n].metric, other, matching);
      assert vec == vec[..n] + [vec[n]];
    }
  }

  // ----- histogram quantiles -----

  const BUCKET_LABEL := "le"

  /** The buckets of one histogram, kept across steps, and the label set of its quantiles. */
  datatype MetricWithBuckets = MetricWithBuckets(metric: Metric, buckets: seq<Quantile.Bucket>)

  type ParseBound = string -> Option<Quantile.Bound>

  /** The bucket a sample stands for, if it has a bound that parses. */
  function BucketOf(s: VectorSample, parse: ParseBound): Option<Quantile.Bucket> {
    var bound := parse(if BUCKET_LABEL in s.metric then s.metric[BUCKET_LABEL] else "");
    if bound.Some? then Some(Quantile.Bucket(bound.value, s.v)) else None
  }

  function WithoutBucket(m: Metric): Metric {
    m - {BUCKET_LABEL, METRIC_NAME}
  }

  /** The buckets of the histogram with the given labels, in the order of the samples. */
  function BucketsFor(vec: seq<VectorSample>, m: Metric, parse: ParseBound): seq<Quantile.Bucket> {
    if vec == [] then []
    else
      var last := vec[|vec| - 1];
      var b := BucketOf(last, parse);
      BucketsFor(vec[..|vec| - 1], m, parse) + if b.Some? && WithoutBucket(last.metric) == m then [b.value] else []
  }

  /** The bound is the label "le"; a histogram is all labels but that and the name. */
  ghost predicate IsBucket(s: VectorSample, m: Metric, parse: ParseBound, b: Quantile.Bucket) {
    && parse(if "le" in s.metric then s.metric["le"] else "") == Some(b.upperBound)
    && b.count == s.v && s.metric - {"le", "__name__"} == m
  }

  /** A histogram has exactly the buckets that samples of it stand for. */
  lemma {:induction false} BucketsExactly(vec: seq<VectorSample>, m: Metric, parse: ParseBound, b: Quantile.Bucket)
    ensures b in BucketsFor(vec, m, parse) <==> exists i :: 0 <= i < |vec| && IsBucket(vec[i], m, parse, b)
  {
    if vec != [] {
      var n := |vec| - 1;
      BucketsExactly(vec[..n], m, parse, b);
      var o := BucketOf(vec[n], parse);
      assert IsBucket(vec[n], m, parse, b) <==> o == Some(b) && WithoutBucket(vec[n].metric) == m;
      hide IsBucket;
      if i :| 0 <= i < n && IsBucket(vec[..n][i], m, parse, b) {
        assert IsBucket(vec[i], m, parse, b);
      }
      if i :| 0 <= i < |vec| && IsBucket(vec[i], m, parse, b) {
        assert i < n ==> IsBucket(vec[..n][i], m, parse, b);
      }
    }
  }

  function Histograms(vec: seq<VectorSample>, parse: ParseBound): set<Metric> {
    set i | 0 <= i < |vec| && BucketOf(vec[i], parse).Some? :: WithoutBucket(vec[i].metric)
  }

  /** One quantile for each histogram of the vector. */
  ghost function QuantileVector(q: real, vec: seq<VectorSample>, parse: ParseBound, asFloat: Quantile.Result -> real): Vector {
    map m | m in Histograms(vec, parse) :: asFloat(Quantile.QuantileOfBuckets(q, BucketsFor(vec, m, parse)))
  }

  /** Every histogram has the buckets of the samples, and those without any have none left. */
  ghost predicate Filled(hs: map<Metric, MetricWithBuckets>, vec: seq<VectorSample>, parse: ParseBound) {
    forall m :: (if m in hs then hs[m].buckets else []) == BucketsFor(vec, m, parse)
  }

  function WithBucket(hs: map<Metric, MetricWithBuckets>, m: Metric, b: Quantile.Bucket): map<Metric, MetricWithBuckets> {
    hs[m := MetricWithBuckets(m, (if m in hs then hs[m].buckets else []) + [b])]
  }

  lemma NothingFilled(hs: map<Metric, MetricWithBuckets>, parse: ParseBound)
    requires forall m :: m in hs ==> hs[m].buckets == []
    ensures Filled(hs, [], parse)
  {
  }

  lemma FilledNext(hs: map<Metric, MetricWithBuckets>, vec: seq<VectorSample>, i: nat, parse: ParseBound)
    requires i < |vec| && Filled(hs, vec[..i], parse)
    ensures BucketOf(vec[i], parse).None? ==> Filled(hs, vec[..i + 1], parse)
    ensures BucketOf(vec[i], parse).Some? ==> Filled(WithBucket(hs, WithoutBucket(vec[i].metric), BucketOf(vec[i], parse).value), vec[..i + 1], parse)
  {
    hide BucketOf, WithoutBucket;
    assert vec[..i + 1][..i] == vec[..i];
  }

  /** The quantiles of the histograms done so far. */
  ghost function Evaluated(hs: map<Metric, MetricWithBuckets>, done: set<Metric>, q: real, asFloat: Quantile.Result -> real): Vector {
    map m | m in done && m in hs && hs[m].buckets != [] :: asFloat(Quantile.QuantileOfBuckets(q, hs[m].buckets))
  }

  lemma NothingEvaluated(hs: map<Metric, MetricWithBuckets>, q: real, asFloat: Quantile.Result -> real)
    ensures Evaluated(hs, hs.Keys - hs.Keys, q, asFloat) == ToVector([])
    ensures Unique([])
  {
    hide Quantile.QuantileOfBuckets;
  }

  lemma EvaluatedNext(hs: map<Metric, MetricWithBuckets>, todo: set<Metric>, m: Metric, q: real, asFloat: Quantile.Result -> real)
    requires m in todo && todo <= hs.Keys
    ensures Evaluated(hs, hs.Keys - (todo - {m}), q, asFloat) ==
      if hs[m].buckets == [] then Evaluated(hs, hs.Keys - todo, q, asFloat)
      else Evaluated(hs, hs.Keys - todo, q, asFloat)[m := asFloat(Quantile.QuantileOfBuckets(q, hs[m].buckets))]
    ensures m !in Evaluated(hs, hs.Keys - todo, q, asFloat)
  {
    hide Quantile.QuantileOfBuckets;
  }

  lemma AllEvaluated(hs: map<Metric, MetricWithBuckets>, vec: seq<VectorSample>, parse: ParseBound, q: real, asFloat: Quantile.Result -> real)
    requires Filled(hs, vec, parse)
    ensures Evaluated(hs, hs.Keys, q, asFloat) == QuantileVector(q, vec, parse, asFloat)
  {
    hide Quantile.QuantileOfBuckets, Histograms, BucketsFor;
    forall m ensures m in Evaluated(hs, hs.Keys, q, asFloat) <==> m in Histograms(vec, parse) {
      HistogramsHaveBuckets(vec, parse, m);
    }
  }

  /** Sorts and merges a slice of buckets in place for its quantile. */
  method QuantileInPlace(q: real, buckets: seq<Quantile.Bucket>) returns (r: Quantile.Result, after: seq<Quantile.Bucket>)
    requires |buckets| > 0
    ensures r == Quantile.QuantileOfBuckets(q, buckets)
  {
    hide Quantile.QuantileOfBuckets;
    var slice := new Quantile.Bucket[|buckets|](i requires 0 <= i < |buckets| => buckets[i]);
    assert slice[..] == buckets;
    r := Quantile.BucketQuantile(q, slice);
    after := slice[..];
  }

  lemma {:induction false} HistogramsHaveBuckets(vec: seq<VectorSample>, parse: ParseBound, m: Metric)
    ensures m in Histograms(vec, parse) <==> BucketsFor(vec, m, parse) != []
  {
    if vec != [] {
      var n := |vec| - 1;
      HistogramsHaveBuckets(vec[..n], parse, m);
      hide BucketOf, WithoutBucket;
      if m in Histograms(vec, parse) {
        var i :| 0 <= i < |vec| && BucketOf(vec[i], parse).Some? && WithoutBucket(vec[i].metric) == m;
        assert i < n ==> vec[..n][i] == vec[i];
      }
      if m in Histograms(vec[..n], parse) {
        var i :| 0 <= i < n && BucketOf(vec[..n][i], parse).Some? && WithoutBucket(vec[..n][i].metric) == m;
        assert vec[i] == vec[..n][i];
      }
    }
  }

  lemma EmptyPartner(rhs: seq<VectorSample>, matching: Matching)
    requires rhs == []
    ensures forall sig :: Partner(sig, rhs, matching) == None
  {
  }

  lemma PartnerNext(rhs: seq<VectorSample>, i: nat, matching: Matching, sig: Metric)
    requires i < |rhs|
    ensures Partner(sig, rhs[..i + 1], matching)
         == if Signature(rhs[i].metric, matching) == sig then Some(rhs[i]) else Partner(sig, rhs[..i], matching)
  {
    hide Signature;
    assert rhs[..i + 1][..i] == rhs[..i];
  }

  class EvalNodeHelper {
    // caches kept for the whole node; keys stand for hashes
    var dmn: map<Metric, Metric>
    var sigf: map<Metric, Metric>
    var resultMetric: map<(Metric, Metric), Metric>
    // emptied at the start of every use
    var rightSigs: map<Metric, VectorSample>
    var matchedSigs: map<Metric, set<Metric>>
    // the bucket slices of earlier steps are truncated and filled again
    var histograms: map<Metric, MetricWithBuckets>
    // what the node computes, the same at all steps
    const op: Op
    const matching: Matching

    constructor (op: Op, matching: Matching)
      ensures Valid() && this.op == op && this.matching == matching
    {
      dmn, sigf, resultMetric, rightSigs, matchedSigs, histograms := map[], map[], map[], map[], map[], map[];
      this.op, this.matching := op, matching;
    }

    /** Every cached entry is what would be computed. Nothing is known of the two
        per-step maps, nor of the buckets left in a histogram. */
    ghost predicate Valid()
      reads this
    {
      && (forall m :: m in dmn ==> dmn[m] == DropName(m))
      && (forall m :: m in sigf ==> sigf[m] == Signature(m, matching))
      && (forall p :: p in resultMetric ==> resultMetric[p] == ResultMetric(p.0, p.1, op, matching))
      && (forall m :: m in histograms ==> histograms[m].metric == m)
    }

    ghost predicate Indexed(rhs: seq<VectorSample>)
      reads this`rightSigs
    {
      forall sig :: (if sig in rightSigs then Some(rightSigs[sig]) else None) == Partner(sig, rhs, matching)
    }

    method CachedDropName(m: Metric) returns (r: Metric)
      requires Valid()
      modifies this`dmn
      ensures Valid() && r == DropName(m)
    {
      if m in dmn {
        return dmn[m];
      }
      r := DropName(m);
      dmn := dmn[m := r];
    }

    method CachedSignature(m: Metric) returns (r: Metric)
      requires Valid()
      modifies this`sigf
      ensures Valid() && r == Signature(m, matching)
    {
      if m in sigf {
        return sigf[m];
      }
      r := Signature(m, matching);
      sigf := sigf[m := r];
    }

    method CachedResultMetric(lhs: Metric, rhs: Metric) returns (r: Metric)
      requires Valid()
      modifies this`resultMetric
      ensures Valid() && r == ResultMetric(lhs, rhs, op, matching)
    {
      if (lhs, rhs) in resultMetric {
        return resultMetric[(lhs, rhs)];
      }
      r := ResultMetric(lhs, rhs, op, matching);
      resultMetric := resultMetric[(lhs, rhs) := r];
    }

    /** Indexes the "one" side by signature; fails if two samples share one. */
    method IndexOneSide(rhs: seq<VectorSample>) returns (ok: bool)
      requires Valid()
      modifies this`rightSigs, this`sigf
      ensures Valid()
      ensures ok <==> OneSideUnique(rhs, matching)
      ensures ok ==> Indexed(rhs)
    {
      hide Signature, Partner;
      rightSigs := map[];
      EmptyPartner(rhs[..0], matching);
      for i := 0 to |rhs|
        invariant Valid()
        invariant OneSideUnique(rhs[..i], matching)
        invariant forall sig :: sig in rightSigs <==> exists j :: 0 <= j < i && Signature(rhs[j].metric, matching) == sig
        invariant forall sig :: (if sig in rightSigs then Some(rightSigs[sig]) else None) == Partner(sig, rhs[..i], matching)
      {
        var sig := CachedSignature(rhs[i].metric);
        if sig in rightSigs {
          return false;
        }
        rightSigs := rightSigs[sig := rhs[i]];
        forall sig' ensures Partner(sig', rhs[..i + 1], matching) == if sig == sig' then Some(rhs[i]) else Partner(sig', rhs[..i], matching) {
          PartnerNext(rhs, i, matching, sig');
        }
        assert OneSideUnique(rhs[..i + 1], matching);
      }
      assert rhs[..|rhs|] == rhs;
      ok := true;
    }

    /** What one sample of the "many" side contributes, through the caches. */
    method CachedContribution(ls: VectorSample, sig: Metric, ghost rhs: seq<VectorSample>, returnBool: bool) returns (c: Option<VectorSample>)
      requires Valid() && Indexed(rhs) && sig == Signature(ls.metric, matching)
      modifies this`resultMetric
      ensures Valid() && Indexed(rhs)
      ensures c == Contribution(ls, rhs, op, matching, returnBool)
    {
      hide Signature, ResultMetric;
      assert (if sig in rightSigs then Some(rightSigs[sig]) else None) == Partner(sig, rhs, matching);
      if sig !in rightSigs {
        return None;
      }
      var rs := rightSigs[sig];
      var vl, vr := ls.v, rs.v;
      if matching.card.OneToMany? {
        vl, vr := vr, vl;
      }
      var (value, keep) := op.elem(vl, vr);
      if returnBool {
        value := if keep then 1.0 else 0.0;
      } else if !keep {
        return None;
      }
      var metric := CachedResultMetric(ls.metric, rs.metric);
      c := Some(VectorSample(metric, value));
    }

    /** Notes a match; refuses one that conflicts with those noted before. */
    method NoteMatch(sig: Metric, metric: Metric) returns (ok: bool)
      modifies this`matchedSigs
      ensures ok <==> !(sig in old(matchedSigs) && (matching.card.OneToOne? || metric in old(matchedSigs)[sig]))
      ensures ok ==> matchedSigs == Noted(old(matchedSigs), sig, metric, matching)
    {
      if matching.card.OneToOne? {
        if sig in matchedSigs {
          return false;
        }
        matchedSigs := matchedSigs[sig := {}];
      } else {
        if sig !in matchedSigs {
          matchedSigs := matchedSigs[sig := {}];
        } else if metric in matchedSigs[sig] {
          return false;
        }
        matchedSigs := matchedSigs[sig := matchedSigs[sig] + {metric}];
      }
      ok := true;
    }

    /** Combines every sample of the "many" side with its partner. */
    method MatchManySide(lhs: seq<VectorSample>, rhs: seq<VectorSample>, returnBool: bool) returns (r: Result<seq<VectorSample>>)
      requires Valid() && Indexed(rhs)
      modifies this
      ensures Valid()
      ensures r.Ok? <==> NoConflict(lhs, rhs, op, matching, returnBool)
      ensures r.Ok? ==> r.value == Contributions(lhs, rhs, op, matching, returnBool)
    {
      hide Signature, Contribution, NoConflict, Indexed, Noted;
      matchedSigs := map[];
      assert NoConflict([], rhs, op, matching, returnBool) by {
        NoConflictEmpty(rhs, op, matching, returnBool);
      }
      var out: seq<VectorSample> := [];
      for i := 0 to |lhs|
        invariant Valid() && Indexed(rhs)
        invariant matchedSigs == MatchedOf(lhs[..i], rhs, op, matching, returnBool)
        invariant NoConflict(lhs[..i], rhs, op, matching, returnBool)
        invariant out == Contributions(lhs[..i], rhs, op, matching, returnBool)
      {
        assert lhs[..i + 1][..i] == lhs[..i];
        var sig := CachedSignature(lhs[i].metric);
        var c := CachedContribution(lhs[i], sig, rhs, returnBool);
        ConflictDetected(lhs, i, rhs, op, matching, returnBool);
        if c.Some? {
          var ok := NoteMatch(sig, c.value.metric);
          if !ok {
            return Err;
          }
          out := out + [c.value];
        }
      }
      assert lhs[..|lhs|] == lhs;
      r := Ok(out);
    }

    /** A binary operation between two vectors, apart from the set operators. It
        fails exactly when the "one" side repeats a signature or two matches
        conflict, and otherwise yields every contribution, in order. */
    method VectorBinop(left: seq<VectorSample>, right: seq<VectorSample>, returnBool: bool) returns (r: Result<seq<VectorSample>>)
      requires Valid() && !matching.card.ManyToMany?
      modifies this
      ensures Valid()
      ensures var (lhs, rhs) := if matching.card.OneToMany? then (right, left) else (left, right);
              && (r.Ok? <==> OneSideUnique(rhs, matching) && NoConflict(lhs, rhs, op, matching, returnBool))
              && (r.Ok? ==> r.value == Contributions(lhs, rhs, op, matching, returnBool))
              && (r.Ok? <==> NoneAgree(rhs, matching) && NoneCompete(lhs, rhs, op, matching, returnBool))
      ensures r.Ok? ==> forall x :: x in r.value <==> Joined(x, left, right, op, matching, returnBool)
    {
      hide Signature, Joined, MatchJoined, Contributions, NoConflict, OneSideUnique, NoneAgree, NoneCompete, Indexed;
      var lhs, rhs := left, right;
      if matching.card.OneToMany? {
        lhs, rhs := right, left;
      }
      UniqueIsNoneAgree(rhs, matching);
      if OneSideUnique(rhs, matching) {
        NoConflictExactly(lhs, rhs, op, matching, returnBool);
      }
      var ok := IndexOneSide(rhs);
      if !ok {
        return Err;
      }
      r := MatchManySide(lhs, rhs, returnBool);
      forall x ensures x in Contributions(lhs, rhs, op, matching, returnBool) <==> Joined(x, left, right, op, matching, returnBool) {
        ContributionsAreJoin(lhs, rhs, op, matching, returnBool, x);
        MatchJoinedIsJoined(x, lhs, rhs, op, matching, returnBool);
      }
    }

    method CollectSignatures(vec: seq<VectorSample>) returns (sigs: set<Metric>)
      requires Valid()
      modifies this`sigf
      ensures Valid() && sigs == Signatures(vec, matching)
    {
      hide Signature;
      sigs := {};
      for i := 0 to |vec|
        invariant Valid() && sigs == Signatures(vec[..i], matching)
      {
        var sig := CachedSignature(vec[i].metric);
        SignaturesNext(vec, i, matching);
        sigs := sigs + {sig};
      }
      assert vec[..|vec|] == vec;
    }

    method Filter(vec: seq<VectorSample>, sigs: set<Metric>, present: bool) returns (out: seq<VectorSample>)
      requires Valid()
      modifies this`sigf
      ensures Valid() && out == Filtered(vec, sigs, present, matching)
    {
      hide Signature;
      out := [];
      for i := 0 to |vec|
        invariant Valid() && out == Filtered(vec[..i], sigs, present, matching)
      {
        assert vec[..i + 1][..i] == vec[..i];
        var sig := CachedSignature(vec[i].metric);
        if (sig in sigs) == present {
          out := out + [vec[i]];
        }
      }
      assert vec[..|vec|] == vec;
    }

    /** The samples of the left side that have a match on the right. */
    method VectorAnd(lhs: seq<VectorSample>, rhs: seq<VectorSample>) returns (out: seq<VectorSample>)
      requires Valid() && matching.card.ManyToMany?
      modifies this`sigf
      ensures Valid() && out == Filtered(lhs, Signatures(rhs, matching), true, matching)
      ensures forall x :: x in out <==> x in lhs && HasMatch(x.metric, rhs, matching)
    {
      hide Filtered, HasMatch;
      var sigs := CollectSignatures(rhs);
      out := Filter(lhs, sigs, true);
      forall x ensures x in out <==> x in lhs && HasMatch(x.metric, rhs, matching) {
        FilteredExactly(lhs, rhs, true, matching, x);
      }
    }

    /** The samples of the left side without a match on the right. */
    method VectorUnless(lhs: seq<VectorSample>, rhs: seq<VectorSample>) returns (out: seq<VectorSample>)
      requires Valid() && matching.card.ManyToMany?
      modifies this`sigf
      ensures Valid() && out == Filtered(lhs, Signatures(rhs, matching), false, matching)
      ensures forall x :: x in out <==> x in lhs && !HasMatch(x.metric, rhs, matching)
    {
      hide Filtered, HasMatch;
      var sigs := CollectSignatures(rhs);
      out := Filter(lhs, sigs, false);
      forall x ensures x in out <==> x in lhs && !HasMatch(x.metric, rhs, matching) {
        FilteredExactly(lhs, rhs, false, matching, x);
      }
    }

    /** All samples of the left side, and those of the right without a match there. */
    method VectorOr(lhs: seq<VectorSample>, rhs: seq<VectorSample>) returns (out: seq<VectorSample>)
      requires Valid() && matching.card.ManyToMany?
      modifies this`sigf
      ensures Valid() && out == lhs + Filtered(rhs, Signatures(lhs, matching), false, matching)
      ensures forall x :: x in out <==> x in lhs || (x in rhs && !HasMatch(x.metric, lhs, matching))
    {
      hide Filtered, HasMatch;
      var sigs := CollectSignatures(lhs);
      var more := Filter(rhs, sigs, false);
      out := lhs + more;
      forall x ensures x in more <==> x in rhs && !HasMatch(x.metric, lhs, matching) {
        FilteredExactly(rhs, lhs, false, matching, x);
      }
    }

    /** The matching of histogram samples: by all labels but the name and the bound. */
    predicate ForHistograms()
    {
      !matching.on && matching.names == {METRIC_NAME, BUCKET_LABEL}
    }

    /** Truncates the slices of earlier steps and puts every sample into its histogram. */
    method FillBuckets(vec: seq<VectorSample>, parse: ParseBound)
      requires Valid() && ForHistograms()
      modifies this`histograms, this`sigf
      ensures Valid() && Filled(histograms, vec, parse)
    {
      hide BucketOf, Filled, WithoutBucket, Signature, ResultMetric, DropName;
      histograms := map m | m in histograms :: MetricWithBuckets(histograms[m].metric, []);
      NothingFilled(histograms, parse);
      assert vec[..0] == [];
      for i := 0 to |vec|
        invariant Valid() && Filled(histograms, vec[..i], parse)
      {
        FilledNext(histograms, vec, i, parse);
        var b := BucketOf(vec[i], parse);
        if b.Some? {
          var sig := CachedSignature(vec[i].metric);
          SignatureIsWithoutBucket(vec[i].metric, matching);
          histograms := WithBucket(histograms, sig, b.value);
        }
      }
      assert vec[..|vec|] == vec;
    }

    /** `histogram_quantile` at one step: whatever slices earlier steps left, the
        result is that of the step's own samples. The order of its samples is open. */
    method HistogramQuantile(q: real, vec: seq<VectorSample>, parse: ParseBound, asFloat: Quantile.Result -> real) returns (out: seq<VectorSample>)
      requires Valid() && ForHistograms()
      modifies this`histograms, this`sigf
      ensures Valid() && Unique(out) && ToVector(out) == QuantileVector(q, vec, parse, asFloat)
    {
      hide Filled, Quantile.QuantileOfBuckets, QuantileVector, ToVector, Unique, Signature, ResultMetric, DropName;
      FillBuckets(vec, parse);
      ghost var filled := histograms;
      out := [];
      var todo := histograms.Keys;
      NothingEvaluated(filled, q, asFloat);
      while todo != {}
        invariant Valid() && Unique(out) && todo <= filled.Keys
        invariant forall m :: m in todo ==> m in histograms && histograms[m] == filled[m]
        invariant ToVector(out) == Evaluated(filled, filled.Keys - todo, q, asFloat)
        decreases todo
      {
        var m :| m in todo;
        EvaluatedNext(filled, todo, m, q, asFloat);
        todo := todo - {m};
        if |histograms[m].buckets| > 0 {
          var r, after := QuantileInPlace(q, histograms[m].buckets);
          var sample := VectorSample(histograms[m].metric, asFloat(r));
          AppendOne(out, sample);
          out := out + [sample];
          histograms := histograms[m := MetricWithBuckets(m, after)];
        }
      }
      AllEvaluated(filled, vec, parse, q, asFloat);
      assert filled.Keys - todo == filled.Keys;
    }

    /** A binary operation between a vector and a scalar. */
    method VectorScalarBinop(vec: seq<VectorSample>, scalar: real, swap: bool, returnBool: bool) returns (out: seq<VectorSample>)
      requires Valid()
      modifies this`dmn
      ensures Valid()
      ensures out == ScalarOpSpec(vec, scalar, op, swap, returnBool)
    {
      hide DropName;
      out := [];
      for i := 0 to |vec|
        invariant Valid()
        invariant out == ScalarOpSpec(vec[..i], scalar, op, swap, returnBool)
      {
        assert vec[..i + 1][..i] == vec[..i];
        var lv, rv := vec[i].v, scalar;
        if swap {
          lv, rv := rv, lv;
        }
        var (value, keep) := op.elem(lv, rv);
        // a filtering comparison keeps the vector's value, on whichever side it stands
        if op.comparison && swap {
          value := rv;
        }
        if returnBool {
          value := if keep then 1.0 else 0.0;
          keep := true;
        }
        if keep {
          var metric := vec[i].metric;
          if op.dropsName || returnBool {
            metric := CachedDropName(metric);
          }
          out := out + [VectorSample(metric, value)];
        }
      }
      assert vec[..|vec|] == vec;
    }
  }

  lemma SignaturesNext(vec: seq<VectorSample>, i: nat, matching: Matching)
    requires i < |vec|
    ensures Signatures(vec[..i + 1], matching) == Signatures(vec[..i], matching) + {Signature(vec[i].metric, matching)}
  {
    hide Signature;
    var a, b := vec[..i + 1], vec[..i];
    forall sig ensures sig in Signatures(a, matching) <==> sig in Signatures(b, matching) || sig == Signature(vec[i].metric, matching) {
      if sig in Signatures(a, matching) {
        var j :| 0 <= j < |a| && Signature(a[j].metric, matching) == sig;
        assert j < i ==> b[j] == a[j];
      }
      if sig in Signatures(b, matching) {
        var j :| 0 <= j < |b| && Signature(b[j].metric, matching) == sig;
        assert a[j] == b[j];
      }
      assert a[i] == vec[i];
    }
  }

  lemma SignatureIsWithoutBucket(m: Metric, matching: Matching)
    requires !matching.on && matching.names == {METRIC_NAME, BUCKET_LABEL}
    ensures Signature(m, matching) == WithoutBucket(m)
  {
    assert matching.names + {METRIC_NAME} == {BUCKET_LABEL, METRIC_NAME};
  }

  lemma AppendOne(out: seq<VectorSample>, x: VectorSample)
    ensures ToVector(out + [x]) == ToVector(out)[x.metric := x.v]
    ensures Unique(out) && x.metric !in ToVector(out) ==> Unique(out + [x])
  {
    assert (out + [x])[..|out|] == out;
    MetricsOf(out);
  }

  lemma {:induction false} MetricsOf(out: seq<VectorSample>)
    ensures forall i :: 0 <= i < |out| ==> out[i].metric in ToVector(out)
  {
    if out != [] {
      MetricsOf(out[..|out| - 1]);
      assert forall i :: 0 <= i < |out| - 1 ==> out[i] == out[..|out| - 1][i];
    }
  }

  function Noted(matched: map<Metric, set<Metric>>, sig: Metric, metric: Metric, matching: Matching): map<Metric, set<Metric>> {
    matched[sig := if matching.card.OneToOne? then {} else (if sig in matched then matched[sig] else {}) + {metric}]
  }

  lemma NoConflictEmpty(rhs: seq<VectorSample>, op: Op, matching: Matching, returnBool: bool)
    ensures NoConflict([], rhs, op, matching, returnBool)
  {
  }

  /** The signatures matched by some samples, with the result label sets each has produced. */
  function MatchedOf(lhs: seq<VectorSample>, rhs: seq<VectorSample>, op: Op, matching: Matching, returnBool: bool): map<Metric, set<Metric>> {
    if lhs == [] then map[]
    else
      var ls := lhs[|lhs| - 1];
      var before := MatchedOf(lhs[..|lhs| - 1], rhs, op, matching, returnBool);
      match Contribution(ls, rhs, op, matching, returnBool)
      case None => before
      case Some(s) => Noted(before, Signature(ls.metric, matching), s.metric, matching)
  }

  ghost predicate Contributes(x: VectorSample, rhs: seq<VectorSample>, op: Op, matching: Matching, returnBool: bool, sig: Metric) {
    Contribution(x, rhs, op, matching, returnBool).Some? && Signature(x.metric, matching) == sig
  }

  lemma {:induction false} MatchedMembers(lhs: seq<VectorSample>, rhs: seq<VectorSample>, op: Op, matching: Matching, returnBool: bool, sig: Metric, m: Metric)
    ensures sig in MatchedOf(lhs, rhs, op, matching, returnBool) <==>
      exists j :: 0 <= j < |lhs| && Contributes(lhs[j], rhs, op, matching, returnBool, sig)
    ensures !matching.card.OneToOne? && sig in MatchedOf(lhs, rhs, op, matching, returnBool) ==>
      (m in MatchedOf(lhs, rhs, op, matching, returnBool)[sig] <==>
       exists j :: (0 <= j < |lhs| && Contributes(lhs[j], rhs, op, matching, returnBool, sig)
                    && Contribution(lhs[j], rhs, op, matching, returnBool).value.metric == m))
  {
    hide Signature, Contribution;
    if lhs != [] {
      var init := lhs[..|lhs| - 1];
      MatchedMembers(init, rhs, op, matching, returnBool, sig, m);
      assert forall j :: 0 <= j < |init| ==> init[j] == lhs[j];
    }
  }

  /** The maps carried along a step tell exactly whether the next sample conflicts with an earlier one. */
  lemma ConflictDetected(lhs: seq<VectorSample>, i: nat, rhs: seq<VectorSample>, op: Op, matching: Matching, returnBool: bool)
    requires i < |lhs| && NoConflict(lhs[..i], rhs, op, matching, returnBool)
    ensures var c, sig, matched := Contribution(lhs[i], rhs, op, matching, returnBool), Signature(lhs[i].metric, matching), MatchedOf(lhs[..i], rhs, op, matching, returnBool);
      var clash := c.Some? && sig in matched && (matching.card.OneToOne? || c.value.metric in matched[sig]);
      && (clash ==> !NoConflict(lhs, rhs, op, matching, returnBool))
      && (!clash ==> NoConflict(lhs[..i + 1], rhs, op, matching, returnBool))
  {
    var c, sig := Contribution(lhs[i], rhs, op, matching, returnBool), Signature(lhs[i].metric, matching);
    hide Signature, Contribution;
    if c.Some? {
      MatchedMembers(lhs[..i], rhs, op, matching, returnBool, sig, c.value.metric);
      hide MatchedOf;
      assert forall j :: 0 <= j < i ==> lhs[..i][j] == lhs[j];
    }
  }

  /** A vector with a scalar, sample by sample. */
  function ScalarOpSpec(vec: seq<VectorSample>, scalar: real, op: Op, swap: bool, returnBool: bool): seq<VectorSample> {
    if vec == [] then []
    else
      var before := ScalarOpSpec(vec[..|vec| - 1], scalar, op, swap, returnBool);
      match ScalarResult(vec[|vec| - 1], scalar, op, swap, returnBool)
      case None => before
      case Some(s) => before + [s]
  }

  /** A sample and a scalar in the order written; a comparison keeps the sample's value. */
  ghost predicate PairsWithScalar(s: VectorSample, scalar: real, x: VectorSample, op: Op, swap: bool, returnBool: bool) {
    var (value, keep) := if swap then op.elem(scalar, s.v) else op.elem(s.v, scalar);
    && (returnBool || keep)
    && x.metric == (if op.dropsName || returnBool then s.metric - {"__name__"} else s.metric)
    && x.v == (if !returnBool then (if op.comparison && swap then s.v else value) else if keep then 1.0 else 0.0)
  }

  lemma {:induction false} ScalarOpExactly(vec: seq<VectorSample>, scalar: real, op: Op, swap: bool, returnBool: bool, x: VectorSample)
    ensures x in ScalarOpSpec(vec, scalar, op, swap, returnBool) <==>
      exists i :: 0 <= i < |vec| && PairsWithScalar(vec[i], scalar, x, op, swap, returnBool)
  {
    if vec != [] {
      var n := |vec| - 1;
      ScalarOpExactly(vec[..n], scalar, op, swap, returnBool, x);
      assert PairsWithScalar(vec[n], scalar, x, op, swap, returnBool) <==> ScalarResult(vec[n], scalar, op, swap, returnBool) == Some(x);
      hide PairsWithScalar;
      if i :| 0 <= i < n && PairsWithScalar(vec[..n][i], scalar, x, op, swap, returnBool) {
        assert PairsWithScalar(vec[i], scalar, x, op, swap, returnBool);
      }
      if i :| 0 <= i < |vec| && PairsWithScalar(vec[i], scalar, x, op, swap, returnBool) {
        assert i < n ==> PairsWithScalar(vec[..n][i], scalar, x, op, swap, returnBool);
      }
    }
  }

  /** What one sample gives with a scalar, nothing if a comparison filters it out. */
  function ScalarResult(s: VectorSample, scalar: real, op: Op, swap: bool, returnBool: bool): Option<VectorSample> {
    var (result, keep) := if swap then op.elem(scalar, s.v) else op.elem(s.v, scalar);
    var metric := if op.dropsName || returnBool then DropName(s.metric) else s.metric;
    if returnBool then Some(VectorSample(metric, if keep then 1.0 else 0.0))
    else if !keep then None
    else Some(VectorSample(metric, if op.comparison && swap then s.v else result))
  }
}
