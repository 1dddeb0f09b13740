/** Translating label matchers into parameterised SQL clauses, and choosing the
    series of a query with them. */
module Matchers {
  import opened Common

  datatype MatchType = MatchEqual | MatchNotEqual | MatchRegexp | MatchNotRegexp
  datatype Matcher = Matcher(kind: MatchType, name: string, value: string)

  /** Whether a regular expression matches a string, for PromQL (the whole of
      it) or for the database (some part of it). */
  type Regex = (string, string) -> bool

  predicate Accepts(m: Matcher, value: string, re: Regex) {
    match m.kind
    case MatchEqual => value == m.value
    case MatchNotEqual => value != m.value
    case MatchRegexp => re(m.value, value)
    case MatchNotRegexp => !re(m.value, value)
  }

  // ----- what is stored -----

  datatype LabelRow = LabelRow(key: string, value: string)
  type LabelTable = map<nat, LabelRow>
  datatype Series = Series(id: int, metric: string, labels: set<nat>)

  /** A series has at most one value for a label name. */
  ghost predicate OneValue(labels: set<nat>, table: LabelTable) {
    && labels <= table.Keys
    && forall a, b :: a in labels && b in labels && table[a].key == table[b].key ==> a == b
  }

  /** The value of a label, empty if the series does not have it. */
  ghost function ValueOf(labels: set<nat>, key: string, table: LabelTable): string
    requires OneValue(labels, table)
  {
    var v := StoredValue(labels, key, table);
    if v.Some? then v.value else ""
  }

  ghost function StoredValue(labels: set<nat>, key: string, table: LabelTable): Option<string>
    requires OneValue(labels, table)
  {
    if l :| l in labels && table[l].key == key then Some(table[l].value) else None
  }

  lemma ValueIs(labels: set<nat>, key: string, table: LabelTable, l: nat)
    requires OneValue(labels, table) && l in labels && table[l].key == key
    ensures StoredValue(labels, key, table) == Some(table[l].value) && ValueOf(labels, key, table) == table[l].value
  {
  }

  // ----- clauses -----

  datatype Slot = Hole | Param(index: nat)
  datatype Test = Equal | NotEqual | Like | NotLike

  /** `[NOT] labels && (ids of the labels with key = slot and value <test> slot)` */
  datatype Clause = Clause(negated: bool, key: Slot, test: Test, value: Slot)

  predicate TestHolds(test: Test, value: string, arg: string, db: Regex) {
    match test
    case Equal => value == arg
    case NotEqual => value != arg
    case Like => db(arg, value)
    case NotLike => !db(arg, value)
  }

  predicate Bound(slot: Slot, args: seq<string>) {
    slot.Param? && 1 <= slot.index <= |args|
  }

  predicate WellBound(c: Clause, args: seq<string>) {
    Bound(c.key, args) && Bound(c.value, args)
  }

  function Resolve(slot: Slot, args: seq<string>): string
    requires Bound(slot, args)
  {
    args[slot.index - 1]
  }

  ghost predicate ClauseHolds(c: Clause, args: seq<string>, labels: set<nat>, table: LabelTable, db: Regex)
    requires WellBound(c, args)
  {
    c.negated != exists l :: l in labels && l in table && table[l].key == Resolve(c.key, args)
                              && TestHolds(c.test, table[l].value, Resolve(c.value, args), db)
  }

  /** How many placeholders of a query, given in the order of its text, have no number yet. */
  function Holes(query: seq<Slot>): nat {
    if query == [] then 0 else Holes(query[..|query| - 1]) + if query[|query| - 1].Hole? then 1 else 0
  }

  /** The numbers given out: the k-th hole gets `first + k`, placeholders with a number keep it. */
  ghost predicate Numbered(query: seq<Slot>, filled: seq<Slot>, first: nat) {
    && |filled| == |query|
    && forall i :: 0 <= i < |query| ==> filled[i] == if query[i].Hole? then Param(first + Holes(query[..i])) else query[i]
  }

  /** Numbers the holes of a query after the arguments there are; a wrong number
      of new arguments is an error. */
  method FillInParameters(query: seq<Slot>, existing: seq<string>, added: seq<string>) returns (r: Result<(seq<Slot>, seq<string>)>)
    ensures r.Ok? <==> Holes(query) == |added|
    ensures r.Ok? ==> Numbered(query, r.value.0, |existing| + 1) && r.value.1 == existing + added
  {
    if Holes(query) != |added| {
      return Err;
    }
    var argIndex, filled: seq<Slot> := |existing| + 1, [];
    for i := 0 to |query|
      invariant argIndex == |existing| + 1 + Holes(query[..i]) && Numbered(query[..i], filled, |existing| + 1)
    {
      assert query[..i + 1][..i] == query[..i];
      ghost var before := filled;
      if query[i].Hole? {
        filled, argIndex := filled + [Param(argIndex)], argIndex + 1;
      } else {
        filled := filled + [query[i]];
      }
      forall j | 0 <= j < i ensures filled[j] == if query[j].Hole? then Param(|existing| + 1 + Holes(query[..j])) else query[j] {
        assert filled[j] == before[j] && query[..i][j] == query[j] && query[..i][..j] == query[..j];
      }
      forall j | 0 <= j < i + 1 ensures query[..i + 1][..j] == query[..j] {
      }
    }
    assert query[..|query|] == query;
    return Ok((filled, existing + added));
  }

  lemma {:induction false} HolesConcat(a: seq<Slot>, b: seq<Slot>)
    ensures Holes(a + b) == Holes(a) + Holes(b)
    decreases |b|
  {
    if b == [] {
      assert a + b == a;
    } else {
      assert (a + b)[..|a + b| - 1] == a + b[..|b| - 1];
      HolesConcat(a, b[..|b| - 1]);
    }
  }

  lemma {:induction false} HolesGrow(query: seq<Slot>, i: nat)
    requires i < |query|
    ensures Holes(query[..i]) + (if query[i].Hole? then 1 else 0) <= Holes(query)
  {
    if i == |query| - 1 {
      assert query[..i] == query[..|query| - 1];
    } else {
      HolesGrow(query[..|query| - 1], i);
      assert query[..|query| - 1][..i] == query[..i];
    }
  }

  /** Every hole resolves to its new argument, in order. */
  lemma HoleResolves(query: seq<Slot>, filled: seq<Slot>, existing: seq<string>, added: seq<string>, i: nat)
    requires Numbered(query, filled, |existing| + 1) && Holes(query) == |added| && i < |query| && query[i].Hole?
    ensures Bound(filled[i], existing + added) && Holes(query[..i]) < |added|
    ensures Resolve(filled[i], existing + added) == added[Holes(query[..i])]
  {
    HolesGrow(query, i);
  }

  /** The holes of a part of a query resolve, in order, to the arguments from number `skipped` of those added. */
  ghost predicate Receives(part: seq<Slot>, filled: seq<Slot>, args: seq<string>, added: seq<string>, skipped: nat) {
    && |filled| == |part|
    && forall i :: 0 <= i < |part| && part[i].Hole? ==>
         var k := skipped + Holes(part[..i]);
         k < |added| && Bound(filled[i], args) && Resolve(filled[i], args) == added[k]
  }

  /** Placeholders that have numbers go on resolving to the arguments they had. */
  ghost predicate Keeps(part: seq<Slot>, filled: seq<Slot>, before: seq<string>, args: seq<string>)
    requires forall i :: 0 <= i < |part| ==> Bound(part[i], before)
  {
    && |filled| == |part|
    && forall i :: 0 <= i < |part| ==> Bound(filled[i], args) && Resolve(filled[i], args) == Resolve(part[i], before)
  }

  /** The finished query: the placeholders of its time and value clauses, then those
      of the clauses built before, which have their numbers. Each hole resolves to
      the argument meant for it, and the clauses built before keep theirs. */
  method FinalizeQuery(time: seq<Slot>, timeParams: seq<string>, value: seq<Slot>, valueParams: seq<string>,
                       rest: seq<Slot>, restParams: seq<string>)
      returns (r: Result<(seq<Slot>, seq<string>)>)
    requires forall i :: 0 <= i < |rest| ==> Bound(rest[i], restParams)
    ensures r.Ok? <==> Holes(time) + Holes(value) == |timeParams| + |valueParams|
    ensures r.Ok? ==>
      var (filled, args) := r.value;
      && |filled| == |time| + |value| + |rest|
      && Receives(time, filled[..|time|], args, timeParams + valueParams, 0)
      && Receives(value, filled[|time|..|time| + |value|], args, timeParams + valueParams, Holes(time))
      && Keeps(rest, filled[|time| + |value|..], restParams, args)
  {
    hide Holes, Numbered, Receives, PartOf;
    var query, added := time + value + rest, timeParams + valueParams;
    assert Holes(rest) == 0 by { NoHoles(rest, restParams); }
    HolesConcat(time + value, rest);
    HolesConcat(time, value);
    r := FillInParameters(query, restParams, added);
    if r.Ok? {
      var (filled, args) := r.value;
      NumberedLength(query, filled, |restParams| + 1);
      assert query == [] + time + (value + rest);
      IsPartOf([], time, value + rest, query);
      IsPartOf(time, value, rest, query);
      assert Holes([]) == 0 by { NoHoles([], restParams); }
      PartReceives(time, query, 0, 0, filled, restParams, added);
      PartReceives(value, query, |time|, Holes(time), filled, restParams, added);
      forall i | 0 <= i < |rest|
        ensures Bound(filled[|time| + |value| + i], args) && Resolve(filled[|time| + |value| + i], args) == Resolve(rest[i], restParams)
      {
        assert query[|time| + |value| + i] == rest[i];
        KeepsNumber(query, filled, |restParams| + 1, |time| + |value| + i);
      }
    }
  }

  /** `part` lies in the query from index `at` on, with `h` holes before it. */
  ghost predicate PartOf(part: seq<Slot>, query: seq<Slot>, at: nat, h: nat) {
    && at + |part| <= |query|
    && forall i :: 0 <= i < |part| ==> query[at + i] == part[i] && Holes(query[..at + i]) == h + Holes(part[..i])
  }

  lemma IsPartOf(before: seq<Slot>, part: seq<Slot>, after: seq<Slot>, query: seq<Slot>)
    requires query == before + part + after
    ensures PartOf(part, query, |before|, Holes(before))
  {
    forall i | 0 <= i < |part| ensures query[|before| + i] == part[i] && Holes(query[..|before| + i]) == Holes(before) + Holes(part[..i]) {
      assert query[..|before| + i] == before + part[..i];
      HolesConcat(before, part[..i]);
    }
  }

  lemma PartAt(part: seq<Slot>, query: seq<Slot>, at: nat, h: nat, i: nat)
    requires PartOf(part, query, at, h) && i < |part|
    ensures at + |part| <= |query| && query[at + i] == part[i] && Holes(query[..at + i]) == h + Holes(part[..i])
  {
    hide Holes;
  }

  lemma PartFits(part: seq<Slot>, query: seq<Slot>, at: nat, h: nat)
    requires PartOf(part, query, at, h)
    ensures at + |part| <= |query|
  {
  }

  lemma PartReceives(part: seq<Slot>, query: seq<Slot>, at: nat, h: nat, filled: seq<Slot>, existing: seq<string>, added: seq<string>)
    requires PartOf(part, query, at, h) && Numbered(query, filled, |existing| + 1) && Holes(query) == |added|
    ensures |filled| == |query| && at + |part| <= |query| && Receives(part, filled[at..at + |part|], existing + added, added, h)
  {
    hide Holes, Numbered, Bound, Resolve, PartOf;
    NumberedLength(query, filled, |existing| + 1);
    PartFits(part, query, at, h);
    forall i | 0 <= i < |part| && part[i].Hole?
      ensures h + Holes(part[..i]) < |added| && Bound(filled[at + i], existing + added)
      ensures Resolve(filled[at + i], existing + added) == added[h + Holes(part[..i])]
    {
      PartAt(part, query, at, h, i);
      HoleResolves(query, filled, existing, added, at + i);
    }
  }

  lemma {:induction false} NoHoles(query: seq<Slot>, args: seq<string>)
    requires forall i :: 0 <= i < |query| ==> Bound(query[i], args)
    ensures Holes(query) == 0
  {
    if query != [] {
      NoHoles(query[..|query| - 1], args);
    }
  }

  lemma NumberedLength(query: seq<Slot>, filled: seq<Slot>, first: nat)
    requires Numbered(query, filled, first)
    ensures |filled| == |query|
  {
  }

  lemma KeepsNumber(query: seq<Slot>, filled: seq<Slot>, first: nat, i: nat)
    requires Numbered(query, filled, first) && i < |query| && query[i].Param?
    ensures |filled| == |query| && filled[i] == query[i]
  {
  }

  function SlotsOf(c: Clause): seq<Slot> {
    [c.key, c.value]
  }

  lemma TwoHoles(c: Clause, filled: seq<Slot>, existing: seq<string>, added: seq<string>)
    requires c.key.Hole? && c.value.Hole?
    ensures Holes(SlotsOf(c)) == 2
    ensures Numbered(SlotsOf(c), filled, |existing| + 1) && |added| == 2 ==>
      && |filled| == 2 && Bound(filled[0], existing + added) && Bound(filled[1], existing + added)
      && Resolve(filled[0], existing + added) == added[0] && Resolve(filled[1], existing + added) == added[1]
  {
    var q := SlotsOf(c);
    assert q[..1] == [c.key] && q[..0] == [] && [c.key][..0] == [];
    assert Holes(q[..1]) == 1;
  }

  function AnchorValue(str: string): string {
    if str == "" then "^$"
    else if str[0] == '^' && str[|str| - 1] == '$' then str
    else if str[0] == '^' then str + "$"
    else if str[|str| - 1] == '$' then "^" + str
    else "^" + str + "$"
  }

  /** The clause made for a matcher, and its second argument. */
  function TemplateOf(m: Matcher, matchesEmpty: bool): Clause {
    var test :=
      match m.kind
      case MatchEqual => if matchesEmpty then NotEqual else Equal
      case MatchNotEqual => if matchesEmpty then Equal else NotEqual
      case MatchRegexp => if matchesEmpty then NotLike else Like
      case MatchNotRegexp => if matchesEmpty then Like else NotLike;
    Clause(matchesEmpty, Hole, test, Hole)
  }

  function ArgumentOf(m: Matcher): string {
    if m.kind.MatchRegexp? || m.kind.MatchNotRegexp? then AnchorValue(m.value) else m.value
  }

  /** The database, given the anchored pattern, decides like PromQL. */
  ghost predicate Agrees(pattern: string, re: Regex, db: Regex) {
    forall s :: db(AnchorValue(pattern), s) == re(pattern, s)
  }

  ghost predicate MatcherAgrees(m: Matcher, re: Regex, db: Regex) {
    m.kind.MatchRegexp? || m.kind.MatchNotRegexp? ==> Agrees(m.value, re, db)
  }

  /** The clause holds of exactly the series that the matcher accepts. */
  ghost predicate Faithful(c: Clause, args: seq<string>, m: Matcher, re: Regex, db: Regex) {
    && WellBound(c, args)
    && forall labels: set<nat>, table: LabelTable :: OneValue(labels, table) ==>
         (ClauseHolds(c, args, labels, table, db) <==> Accepts(m, ValueOf(labels, m.name, table), re))
  }

  /** What the matcher made into a clause accepts: a value the series has is
      judged by the database, a missing one by PromQL. */
  predicate Judged(m: Matcher, value: Option<string>, re: Regex, db: Regex) {
    match value
    case None => Accepts(m, "", re)
    case Some(v) =>
      match m.kind
      case MatchEqual => v == m.value
      case MatchNotEqual => v != m.value
      case MatchRegexp => db(AnchorValue(m.value), v)
      case MatchNotRegexp => !db(AnchorValue(m.value), v)
  }

  /** The clause holds of exactly the series that the matcher accepts as so judged. */
  ghost predicate Translates(c: Clause, args: seq<string>, m: Matcher, re: Regex, db: Regex) {
    && WellBound(c, args)
    && forall labels: set<nat>, table: LabelTable :: OneValue(labels, table) ==>
         (ClauseHolds(c, args, labels, table, db) <==> Judged(m, StoredValue(labels, m.name, table), re, db))
  }

  lemma FilledTranslates(c: Clause, args: seq<string>, m: Matcher, re: Regex, db: Regex)
    requires WellBound(c, args)
    requires var t := TemplateOf(m, Accepts(m, "", re)); c.negated == t.negated && c.test == t.test
    requires Resolve(c.key, args) == m.name && Resolve(c.value, args) == ArgumentOf(m)
    ensures Translates(c, args, m, re, db)
  {
    forall labels: set<nat>, table: LabelTable | OneValue(labels, table)
      ensures ClauseHolds(c, args, labels, table, db) <==> Judged(m, StoredValue(labels, m.name, table), re, db)
    {
      TestIsJudgement(c, args, m, re, db);
      if l :| l in labels && table[l].key == m.name {
        ValueIs(labels, m.name, table, l);
      }
    }
  }

  /** On a label's value the inner test says whether the matcher accepts, or for a
      negated clause whether it does not. */
  lemma TestIsJudgement(c: Clause, args: seq<string>, m: Matcher, re: Regex, db: Regex)
    requires WellBound(c, args)
    requires var t := TemplateOf(m, Accepts(m, "", re)); c.negated == t.negated && c.test == t.test
    requires Resolve(c.value, args) == ArgumentOf(m)
    ensures forall v :: TestHolds(c.test, v, Resolve(c.value, args), db) <==> (Judged(m, Some(v), re, db) != c.negated)
  {
  }

  /** A clause is faithful to its matcher, for every series, if and only if the
      database decides the anchored pattern like PromQL decides the pattern. */
  lemma FaithfulExactly(c: Clause, args: seq<string>, m: Matcher, re: Regex, db: Regex)
    requires Translates(c, args, m, re, db)
    ensures Faithful(c, args, m, re, db) <==> MatcherAgrees(m, re, db)
  {
    if MatcherAgrees(m, re, db) {
      forall labels: set<nat>, table: LabelTable | OneValue(labels, table)
        ensures ClauseHolds(c, args, labels, table, db) <==> Accepts(m, ValueOf(labels, m.name, table), re)
      {
      }
    } else {
      var v :| db(AnchorValue(m.value), v) != re(m.value, v);
      var labels, table := {0}, map[0 := LabelRow(m.name, v)];
      assert OneValue(labels, table);
      ValueIs(labels, m.name, table, 0);
      assert ClauseHolds(c, args, labels, table, db) <==> Judged(m, Some(v), re, db);
    }
  }

  ghost predicate AllBound(clauses: seq<Clause>, args: seq<string>) {
    forall i :: 0 <= i < |clauses| ==> WellBound(clauses[i], args)
  }

  ghost predicate AllTranslate(clauses: seq<Clause>, args: seq<string>, ms: seq<Matcher>, re: Regex, db: Regex) {
    && |clauses| == |ms| && AllBound(clauses, args)
    && forall i :: 0 <= i < |clauses| ==> Translates(clauses[i], args, ms[i], re, db)
  }

  /** More arguments do not change what a clause says. */
  lemma TranslatesExtended(c: Clause, args: seq<string>, more: seq<string>, m: Matcher, re: Regex, db: Regex)
    requires Translates(c, args, m, re, db)
    ensures Translates(c, args + more, m, re, db)
  {
    assert Resolve(c.key, args + more) == Resolve(c.key, args) && Resolve(c.value, args + more) == Resolve(c.value, args);
    forall labels: set<nat>, table: LabelTable | OneValue(labels, table)
      ensures ClauseHolds(c, args + more, labels, table, db) <==> ClauseHolds(c, args, labels, table, db)
    {
    }
  }

  lemma OneMoreTranslates(clauses: seq<Clause>, args: seq<string>, ms: seq<Matcher>, c: Clause, more: seq<string>, m: Matcher, re: Regex, db: Regex)
    requires AllTranslate(clauses, args, ms, re, db) && Translates(c, args + more, m, re, db)
    ensures AllTranslate(clauses + [c], args + more, ms + [m], re, db)
  {
    forall i | 0 <= i < |clauses| ensures Translates(clauses[i], args + more, ms[i], re, db) {
      TranslatesExtended(clauses[i], args, more, ms[i], re, db);
    }
    forall i | 0 <= i < |clauses + [c]| ensures Translates((clauses + [c])[i], args + more, (ms + [m])[i], re, db) {
      assert i < |clauses| ==> (clauses + [c])[i] == clauses[i] && (ms + [m])[i] == ms[i];
    }
  }

  class ClauseBuilder {
    var clauses: seq<Clause>
    var args: seq<string>

    constructor ()
      ensures clauses == [] && args == []
    {
      clauses, args := [], [];
    }

    method AddClause(c: Clause, added: seq<string>) returns (ok: bool)
      modifies this
      ensures ok <==> Holes(SlotsOf(c)) == |added|
      ensures !ok ==> clauses == old(clauses) && args == old(args)
      ensures ok ==> args == old(args) + added && |clauses| == |old(clauses)| + 1 && clauses[..|old(clauses)|] == old(clauses)
      ensures ok && c.key.Hole? && c.value.Hole? && |added| == 2 ==>
        var filled := clauses[|clauses| - 1];
        && WellBound(filled, args) && filled.negated == c.negated && filled.test == c.test
        && Resolve(filled.key, args) == added[0] && Resolve(filled.value, args) == added[1]
    {
      hide Holes;
      var r := FillInParameters(SlotsOf(c), args, added);
      if r.Err? {
        return false;
      }
      var slots := r.value.0;
      if c.key.Hole? && c.value.Hole? {
        TwoHoles(c, slots, args, added);
      }
      clauses, args := clauses + [c.(key := slots[0], value := slots[1])], r.value.1;
      return true;
    }

    /** The clause of one more matcher. */
    method AddMatcher(m: Matcher, matchesEmpty: bool, re: Regex, ghost db: Regex, ghost ms: seq<Matcher>)
      requires AllTranslate(clauses, args, ms, re, db) && matchesEmpty == Accepts(m, "", re)
      modifies this
      ensures AllTranslate(clauses, args, ms + [m], re, db) && |clauses| == |old(clauses)| + 1
    {
      hide AllTranslate, Translates, Accepts, TemplateOf, Holes;
      TemplateHoles(m, matchesEmpty);
      TwoHoles(TemplateOf(m, matchesEmpty), [], [], []);
      ghost var before, had := clauses, args;
      var ok := AddClause(TemplateOf(m, matchesEmpty), [m.name, ArgumentOf(m)]);
      ghost var c := clauses[|clauses| - 1];
      FilledTranslates(c, args, m, re, db);
      OneMoreTranslates(before, had, ms, c, [m.name, ArgumentOf(m)], m, re, db);
      assert clauses == before + [c];
    }
  }

  /** The values that the matchers demand of the metric name. */
  function MetricNames(ms: seq<Matcher>): seq<string> {
    if ms == [] then []
    else
      var last := ms[|ms| - 1];
      MetricNames(ms[..|ms| - 1]) + if last.kind.MatchEqual? && last.name == METRIC_NAME then [last.value] else []
  }

  /** Builds one clause per matcher; fails exactly when there is none to build. */
  method BuildSubQueries(ms: seq<Matcher>, re: Regex, ghost db: Regex)
      returns (r: Result<(string, seq<Clause>, seq<string>)>)
    ensures r.Ok? <==> ms != []
    ensures r.Ok? ==>
      var (metric, clauses, args) := r.value;
      && AllTranslate(clauses, args, ms, re, db)
      && metric == if |MetricNames(ms)| == 1 then MetricNames(ms)[0] else ""
  {
    hide AllTranslate, Accepts;
    NoneTranslate(ms, re, db);
    var metric, count := "", 0;
    var cb := new ClauseBuilder();
    for k := 0 to |ms|
      invariant fresh(cb) && |cb.clauses| == k && count == |MetricNames(ms[..k])|
      invariant count > 0 ==> metric == MetricNames(ms[..k])[count - 1]
      invariant count == 0 ==> metric == ""
      invariant AllTranslate(cb.clauses, cb.args, ms[..k], re, db)
    {
      var m := ms[k];
      assert ms[..k + 1][..k] == ms[..k];
      var matchesEmpty := Accepts(m, "", re);
      if m.kind.MatchEqual? && m.name == METRIC_NAME {
        count, metric := count + 1, m.value;
      }
      cb.AddMatcher(m, matchesEmpty, re, db, ms[..k]);
      assert ms[..k + 1] == ms[..k] + [m];
    }
    assert ms[..|ms|] == ms;
    if count > 1 {
      metric := "";
    }
    if |cb.clauses| == 0 {
      return Err;
    }
    return Ok((metric, cb.clauses, cb.args));
  }

  lemma NoneTranslate(ms: seq<Matcher>, re: Regex, db: Regex)
    ensures AllTranslate([], [], ms[..0], re, db)
  {
  }

  lemma TemplateHoles(m: Matcher, matchesEmpty: bool)
    ensures TemplateOf(m, matchesEmpty).key.Hole? && TemplateOf(m, matchesEmpty).value.Hole?
  {
  }

  // ----- selecting series -----

  /** The catalogue: the table of every metric, the series and their labels. */
  datatype Database = Database(tables: map<string, string>, series: set<Series>, labels: LabelTable)

  /** Every series has one value per label name, its metric has a table and is its name label. */
  ghost predicate WellStored(d: Database) {
    forall s :: s in d.series ==>
      && OneValue(s.labels, d.labels) && s.metric in d.tables
      && s.metric == ValueOf(s.labels, METRIC_NAME, d.labels)
  }

  ghost predicate AllHold(s: Series, clauses: seq<Clause>, args: seq<string>, d: Database, db: Regex)
    requires AllBound(clauses, args)
  {
    forall i :: 0 <= i < |clauses| ==> ClauseHolds(clauses[i], args, s.labels, d.labels, db)
  }

  ghost predicate AllAccept(s: Series, ms: seq<Matcher>, d: Database, re: Regex)
    requires OneValue(s.labels, d.labels)
  {
    forall i :: 0 <= i < |ms| ==> Accepts(ms[i], ValueOf(s.labels, ms[i].name, d.labels), re)
  }

  ghost predicate AllJudged(s: Series, ms: seq<Matcher>, d: Database, re: Regex, db: Regex)
    requires OneValue(s.labels, d.labels)
  {
    forall i :: 0 <= i < |ms| ==> Judged(ms[i], StoredValue(s.labels, ms[i].name, d.labels), re, db)
  }

  /** Where the two engines agree on the patterns, a series is accepted as PromQL demands. */
  lemma JudgedIsAccepted(s: Series, ms: seq<Matcher>, d: Database, re: Regex, db: Regex)
    requires OneValue(s.labels, d.labels) && forall i :: 0 <= i < |ms| ==> MatcherAgrees(ms[i], re, db)
    ensures AllJudged(s, ms, d, re, db) <==> AllAccept(s, ms, d, re)
  {
    forall i | 0 <= i < |ms|
      ensures Judged(ms[i], StoredValue(s.labels, ms[i].name, d.labels), re, db) <==> Accepts(ms[i], ValueOf(s.labels, ms[i].name, d.labels), re)
    {
      assert MatcherAgrees(ms[i], re, db);
    }
  }

  /** The general path: all series the clauses hold of, through the tables of their metrics. */
  ghost function ByClauses(clauses: seq<Clause>, args: seq<string>, d: Database, db: Regex): set<Series>
    requires AllBound(clauses, args)
  {
    set s | s in d.series && AllHold(s, clauses, args, d, db) && s.metric in d.tables
  }

  /** The path for one metric: those series of its table the clauses hold of, none without a table. */
  ghost function OfMetric(metric: string, clauses: seq<Clause>, args: seq<string>, d: Database, db: Regex): set<Series>
    requires AllBound(clauses, args)
  {
    if metric !in d.tables then {}
    else set s | s in d.series && s.metric == metric && AllHold(s, clauses, args, d, db)
  }

  lemma HoldIsJudged(s: Series, ms: seq<Matcher>, clauses: seq<Clause>, args: seq<string>, d: Database, re: Regex, db: Regex)
    requires OneValue(s.labels, d.labels) && AllTranslate(clauses, args, ms, re, db)
    ensures AllHold(s, clauses, args, d, db) <==> AllJudged(s, ms, d, re, db)
  {
    hide ClauseHolds, Judged;
    forall i | 0 <= i < |ms|
      ensures ClauseHolds(clauses[i], args, s.labels, d.labels, db) <==> Judged(ms[i], StoredValue(s.labels, ms[i].name, d.labels), re, db)
    {
      assert Translates(clauses[i], args, ms[i], re, db);
    }
  }

  lemma {:induction false} NameIsDemanded(ms: seq<Matcher>, name: string)
    requires name in MetricNames(ms)
    ensures Matcher(MatchEqual, METRIC_NAME, name) in ms
  {
    var last := ms[|ms| - 1];
    if name in MetricNames(ms[..|ms| - 1]) {
      NameIsDemanded(ms[..|ms| - 1], name);
    } else {
      assert last == Matcher(MatchEqual, METRIC_NAME, name);
    }
  }

  /** Both paths select exactly the series that every matcher accepts, its patterns judged by the database. */
  lemma PathsAgree(ms: seq<Matcher>, clauses: seq<Clause>, args: seq<string>, d: Database, re: Regex, db: Regex)
    requires WellStored(d) && AllTranslate(clauses, args, ms, re, db)
    ensures forall s :: s in ByClauses(clauses, args, d, db) <==> s in d.series && AllJudged(s, ms, d, re, db)
    ensures |MetricNames(ms)| == 1 ==> OfMetric(MetricNames(ms)[0], clauses, args, d, db) == ByClauses(clauses, args, d, db)
  {
    hide Translates, AllHold;
    forall s | s in d.series ensures AllHold(s, clauses, args, d, db) <==> AllJudged(s, ms, d, re, db) {
      HoldIsJudged(s, ms, clauses, args, d, re, db);
    }
    if |MetricNames(ms)| == 1 {
      var metric := MetricNames(ms)[0];
      NameIsDemanded(ms, metric);
      var i :| 0 <= i < |ms| && ms[i] == Matcher(MatchEqual, METRIC_NAME, metric);
      forall s | s in d.series && AllJudged(s, ms, d, re, db) ensures s.metric == metric {
        assert Judged(ms[i], StoredValue(s.labels, METRIC_NAME, d.labels), re, db);
      }
    }
  }

  /** A query selects, by whichever path, exactly the series that every matcher
      accepts as the database judges its patterns: those PromQL demands wherever
      the two engines agree on them. */
  method SelectSeries(ms: seq<Matcher>, ghost d: Database, re: Regex, ghost db: Regex)
      returns (r: Result<(string, seq<Clause>, seq<string>)>, ghost selected: set<Series>)
    requires WellStored(d)
    ensures r.Ok? <==> ms != []
    ensures r.Ok? ==> forall s :: s in selected <==> s in d.series && AllJudged(s, ms, d, re, db)
    ensures r.Ok? && (forall i :: 0 <= i < |ms| ==> MatcherAgrees(ms[i], re, db)) ==>
      forall s :: s in selected <==> s in d.series && AllAccept(s, ms, d, re)
  {
    hide Translates, ByClauses, OfMetric, AllBound, AllJudged, AllAccept, MatcherAgrees, ValueOf;
    r := BuildSubQueries(ms, re, db);
    selected := {};
    if r.Ok? {
      var (metric, clauses, args) := r.value;
      PathsAgree(ms, clauses, args, d, re, db);
      if metric != "" {
        selected := OfMetric(metric, clauses, args, d, db);
      } else {
        selected := ByClauses(clauses, args, d, db);
      }
      if forall i :: 0 <= i < |ms| ==> MatcherAgrees(ms[i], re, db) {
        forall s | s in d.series ensures AllJudged(s, ms, d, re, db) <==> AllAccept(s, ms, d, re) {
          JudgedIsAccepted(s, ms, d, re, db);
        }
      }
    }
  }

  // ----- matchers and clauses said of the stored labels -----

  /** The series has the label with this value, or lacks it and the value is empty. */
  ghost predicate HasValue(labels: set<nat>, table: LabelTable, name: string, value: string) {
    || (exists l :: l in labels && l in table && table[l] == LabelRow(name, value))
    || (value == "" && forall l :: l in labels && l in table ==> table[l].key != name)
  }

  lemma ValueMeans(labels: set<nat>, table: LabelTable, name: string, value: string)
    requires OneValue(labels, table)
    ensures HasValue(labels, table, name, value) <==> ValueOf(labels, name, table) == value
  {
    if l :| l in labels && table[l].key == name {
      ValueIs(labels, name, table, l);
      assert table[l] == LabelRow(name, table[l].value);
    }
  }

  /** What each kind of matcher accepts. */
  lemma AcceptedMeans(labels: set<nat>, table: LabelTable, name: string, value: string, re: Regex)
    requires OneValue(labels, table)
    ensures Accepts(Matcher(MatchEqual, name, value), ValueOf(labels, name, table), re) <==> HasValue(labels, table, name, value)
    ensures Accepts(Matcher(MatchNotEqual, name, value), ValueOf(labels, name, table), re) <==> !HasValue(labels, table, name, value)
    ensures Accepts(Matcher(MatchRegexp, name, value), ValueOf(labels, name, table), re) <==>
      exists v :: HasValue(labels, table, name, v) && re(value, v)
    ensures Accepts(Matcher(MatchNotRegexp, name, value), ValueOf(labels, name, table), re) <==>
      forall v :: HasValue(labels, table, name, v) ==> !re(value, v)
  {
    hide HasValue;
    forall v ensures HasValue(labels, table, name, v) <==> ValueOf(labels, name, table) == v {
      ValueMeans(labels, table, name, v);
    }
  }

  /** Whether the series has a label that passes a test. */
  ghost predicate HasPassing(labels: set<nat>, table: LabelTable, name: string, passes: string -> bool) {
    exists l :: l in labels && l in table && table[l].key == name && passes(table[l].value)
  }

  /** The eight clauses: a matcher that accepts the empty value becomes a negated
      clause with the opposite test. */
  lemma EightForms(m: Matcher, args: seq<string>, key: Slot, value: Slot, matchesEmpty: bool, labels: set<nat>, table: LabelTable, db: Regex)
    requires Bound(key, args) && Bound(value, args) && Resolve(key, args) == m.name && Resolve(value, args) == ArgumentOf(m)
    ensures var c := TemplateOf(m, matchesEmpty).(key := key, value := value);
      ClauseHolds(c, args, labels, table, db) <==>
        match m.kind
        case MatchEqual =>
          if matchesEmpty then !HasPassing(labels, table, m.name, v => v != m.value) else HasPassing(labels, table, m.name, v => v == m.value)
        case MatchNotEqual =>
          if matchesEmpty then !HasPassing(labels, table, m.name, v => v == m.value) else HasPassing(labels, table, m.name, v => v != m.value)
        case MatchRegexp =>
          if matchesEmpty then !HasPassing(labels, table, m.name, v => !db(AnchorValue(m.value), v))
          else HasPassing(labels, table, m.name, v => db(AnchorValue(m.value), v))
        case MatchNotRegexp =>
          if matchesEmpty then !HasPassing(labels, table, m.name, v => db(AnchorValue(m.value), v))
          else HasPassing(labels, table, m.name, v => !db(AnchorValue(m.value), v))
  {
  }

  /** Whether a matcher demands the metric name to be equal to its value. */
  predicate Demands(m: Matcher) {
    m.kind == MatchEqual && m.name == "__name__"
  }

  ghost predicate NoneDemands(ms: seq<Matcher>) {
    forall i :: 0 <= i < |ms| ==> !Demands(ms[i])
  }

  lemma {:induction false} NoMetric(ms: seq<Matcher>)
    ensures MetricNames(ms) == [] <==> NoneDemands(ms)
  {
    if ms != [] {
      var n := |ms| - 1;
      NoMetric(ms[..n]);
      assert forall i :: 0 <= i < n ==> ms[..n][i] == ms[i];
    }
  }

  /** The matcher at `i` demands the name, and no other demands any. */
  ghost predicate OnlyDemand(ms: seq<Matcher>, i: nat, name: string) {
    i < |ms| && Demands(ms[i]) && ms[i].value == name && forall j :: 0 <= j < |ms| && j != i ==> !Demands(ms[j])
  }

  /** A single metric is named exactly if one matcher demands it and no other does. */
  lemma {:induction false} OneMetric(ms: seq<Matcher>, name: string)
    ensures MetricNames(ms) == [name] <==> exists i: nat :: OnlyDemand(ms, i, name)
  {
    if ms == [] {
      assert forall i: nat :: !OnlyDemand(ms, i, name);
    } else {
      hide OnlyDemand, NoneDemands;
      var n := |ms| - 1;
      OneMetric(ms[..n], name);
      NoMetric(ms[..n]);
      if Demands(ms[n]) {
        OnlyTheLast(ms, name);
        JustOne(MetricNames(ms[..n]), ms[n].value, name);
      } else {
        forall i: nat ensures OnlyDemand(ms, i, name) <==> OnlyDemand(ms[..n], i, name) {
          NotTheLast(ms, i, name);
        }
      }
    }
  }

  lemma JustOne(names: seq<string>, last: string, name: string)
    ensures names + [last] == [name] <==> names == [] && last == name
  {
    if names + [last] == [name] {
      assert |names + [last]| == 1;
      assert (names + [last])[0] == last;
    }
  }

  lemma OnlyTheLast(ms: seq<Matcher>, name: string)
    requires ms != [] && Demands(ms[|ms| - 1])
    ensures (exists i: nat :: OnlyDemand(ms, i, name)) <==> ms[|ms| - 1].value == name && NoneDemands(ms[..|ms| - 1])
  {
    var n := |ms| - 1;
    assert forall i :: 0 <= i < n ==> ms[..n][i] == ms[i];
    if i: nat :| OnlyDemand(ms, i, name) {
      assert i == n;
    }
    if ms[n].value == name && NoneDemands(ms[..n]) {
      assert OnlyDemand(ms, n, name);
    }
  }

  lemma NotTheLast(ms: seq<Matcher>, i: nat, name: string)
    requires ms != [] && !Demands(ms[|ms| - 1])
    ensures OnlyDemand(ms, i, name) <==> OnlyDemand(ms[..|ms| - 1], i, name)
  {
    var n := |ms| - 1;
    assert forall j :: 0 <= j < n ==> ms[..n][j] == ms[j];
  }
}
