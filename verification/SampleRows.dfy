/** The rows of a write: grouping them by metric, and enumerating them for insertion. */
module SampleRows {
  import opened Common

  datatype PromSample = PromSample(t: int, v: real)

  /** The samples of one series; the id is negative until it is known. */
  datatype SamplesInfo = SamplesInfo(labels: string, seriesId: int, samples: seq<PromSample>)

  datatype Row = Row(t: int, v: real, series: int)

  const MAX_INT64 := 0x7fff_ffff_ffff_ffff

  function RowsOf(info: SamplesInfo): (r: seq<Row>)
    ensures |r| == |info.samples|
    ensures forall i :: 0 <= i < |r| ==> r[i] == Row(info.samples[i].t, info.samples[i].v, info.seriesId)
  {
    seq(|info.samples|, i requires 0 <= i < |info.samples| => Row(info.samples[i].t, info.samples[i].v, info.seriesId))
  }

  /** All rows of a batch, in order. */
  function AllRows(infos: seq<SamplesInfo>): seq<Row> {
    if infos == [] then [] else RowsOf(infos[0]) + AllRows(infos[1..])
  }

  /** The rows after sample `j` of info `i`. */
  function RowsAfter(infos: seq<SamplesInfo>, i: nat, j: int): seq<Row>
    requires i < |infos| ==> -1 <= j < |infos[i].samples|
  {
    if i >= |infos| then [] else RowsOf(infos[i])[j + 1..] + AllRows(infos[i + 1..])
  }

  /** The smallest time of the rows, or the largest integer if there are none. */
  function MinTime(rows: seq<Row>): int {
    if rows == [] then MAX_INT64
    else
      var m := MinTime(rows[..|rows| - 1]);
      if m > rows[|rows| - 1].t then rows[|rows| - 1].t else m
  }

  lemma {:induction false} MinTimeBound(rows: seq<Row>, i: nat)
    requires i < |rows|
    ensures MinTime(rows) <= rows[i].t
  {
    if i < |rows| - 1 {
      MinTimeBound(rows[..|rows| - 1], i);
    }
  }

  lemma {:induction false} MinTimeReached(rows: seq<Row>) returns (i: nat)
    requires rows != [] && forall k :: 0 <= k < |rows| ==> rows[k].t <= MAX_INT64
    ensures i < |rows| && rows[i].t == MinTime(rows)
  {
    var init, last := rows[..|rows| - 1], |rows| - 1;
    i := last;
    if init != [] && MinTime(init) <= rows[last].t {
      i := MinTimeReached(init);
    }
  }

  /** For times within 64 bits it is the smallest time, taken by some row. */
  lemma MinTimeIsMinimum(rows: seq<Row>)
    requires forall k :: 0 <= k < |rows| ==> rows[k].t <= MAX_INT64
    ensures forall k :: 0 <= k < |rows| ==> MinTime(rows) <= rows[k].t
    ensures rows != [] ==> exists k :: 0 <= k < |rows| && rows[k].t == MinTime(rows)
  {
    hide MinTime;
    forall k | 0 <= k < |rows| ensures MinTime(rows) <= rows[k].t {
      MinTimeBound(rows, k);
    }
    if rows != [] {
      var k := MinTimeReached(rows);
    }
  }

  /** Infos after the first that have no samples make the iterator stumble. */
  ghost predicate Enumerable(infos: seq<SamplesInfo>) {
    forall k :: 1 <= k < |infos| ==> infos[k].samples != []
  }

  /** The rows after a sample begin with the next one of its info. */
  lemma WithinInfo(infos: seq<SamplesInfo>, i: nat, j: int)
    requires i < |infos| && -1 <= j < |infos[i].samples| - 1
    ensures RowsAfter(infos, i, j) == [RowsOf(infos[i])[j + 1]] + RowsAfter(infos, i, j + 1)
  {
    hide RowsOf, AllRows;
    FirstOf(RowsOf(infos[i])[j + 1..], AllRows(infos[i + 1..]));
    assert RowsOf(infos[i])[j + 1..][1..] == RowsOf(infos[i])[j + 2..];
  }

  lemma FirstOf(a: seq<Row>, b: seq<Row>)
    requires a != []
    ensures a + b == [a[0]] + (a[1..] + b)
  {
  }

  lemma AtInfoEnd(infos: seq<SamplesInfo>, i: nat, j: int)
    requires i < |infos| && j == |infos[i].samples| - 1
    ensures RowsAfter(infos, i, j) == AllRows(infos[i + 1..])
  {
    hide RowsOf, AllRows;
    assert RowsOf(infos[i])[j + 1..] == [];
  }

  lemma AtInfoStart(infos: seq<SamplesInfo>, i: nat)
    requires i < |infos| && infos[i].samples != []
    ensures AllRows(infos[i..]) == [RowsOf(infos[i])[0]] + RowsAfter(infos, i, 0)
  {
    hide RowsOf;
    assert infos[i..][0] == infos[i] && infos[i..][1..] == infos[i + 1..];
    FirstOf(RowsOf(infos[i]), AllRows(infos[i + 1..]));
  }

  lemma NoInfos(infos: seq<SamplesInfo>, i: nat)
    requires i == |infos|
    ensures AllRows(infos[i..]) == []
  {
  }

  lemma PastTheEnd(infos: seq<SamplesInfo>, i: nat, j: int)
    ensures i >= |infos| ==> RowsAfter(infos, i, j) == []
  {
  }

  class SampleInfoIterator {
    var sampleInfos: seq<SamplesInfo>
    var sampleInfoIndex: nat
    var sampleIndex: int
    var minSeen: int

    constructor ()
      ensures sampleInfos == [] && AtStart()
    {
      sampleInfos, sampleInfoIndex, sampleIndex, minSeen := [], 0, -1, MAX_INT64;
    }

    ghost predicate AtStart()
      reads this
    {
      sampleInfoIndex == 0 && sampleIndex == -1 && minSeen == MAX_INT64
    }

    /** The position is on a sample, before the first one, or past the last. */
    ghost predicate Placed()
      reads this
    {
      sampleInfoIndex < |sampleInfos| ==> -1 <= sampleIndex < |sampleInfos[sampleInfoIndex].samples|
    }

    ghost function Remaining(): seq<Row>
      requires Placed()
      reads this
    {
      RowsAfter(sampleInfos, sampleInfoIndex, sampleIndex)
    }

    lemma StartRemaining()
      requires AtStart()
      ensures Placed() && Remaining() == AllRows(sampleInfos)
    {
      if sampleInfos != [] {
        assert RowsOf(sampleInfos[0])[0..] == RowsOf(sampleInfos[0]);
      }
    }

    method ResetPosition()
      modifies this`sampleIndex, this`sampleInfoIndex, this`minSeen
      ensures AtStart()
    {
      sampleIndex := -1;
      sampleInfoIndex := 0;
      minSeen := MAX_INT64;
    }

    /** Moves to the next sample: the current one's successor, or the start of the next info. */
    method Next() returns (more: bool)
      requires Placed()
      modifies this`sampleIndex, this`sampleInfoIndex
      ensures more == (sampleInfoIndex < |sampleInfos|)
      ensures old(sampleInfoIndex) <= sampleInfoIndex <= old(sampleInfoIndex) + 1
      ensures sampleInfoIndex > old(sampleInfoIndex) ==> sampleIndex == 0
      ensures sampleInfoIndex == old(sampleInfoIndex) ==> sampleIndex == old(sampleIndex) + 1 && Placed()
      ensures Placed() && more ==> old(Remaining()) == [CurrentRow()] + Remaining()
      ensures !more ==> Placed() && Remaining() == [] && old(Remaining()) == []
    {
      hide RowsAfter, RowsOf, AllRows;
      ghost var i, j := sampleInfoIndex, sampleIndex;
      PastTheEnd(sampleInfos, i, j);
      sampleIndex := sampleIndex + 1;
      if sampleInfoIndex < |sampleInfos| && sampleIndex >= |sampleInfos[sampleInfoIndex].samples| {
        AtInfoEnd(sampleInfos, i, j);
        sampleInfoIndex := sampleInfoIndex + 1;
        sampleIndex := 0;
        if sampleInfoIndex == |sampleInfos| {
          NoInfos(sampleInfos, i + 1);
        } else if |sampleInfos[sampleInfoIndex].samples| > 0 {
          AtInfoStart(sampleInfos, i + 1);
        }
      } else if sampleInfoIndex < |sampleInfos| {
        WithinInfo(sampleInfos, i, j);
      }
      more := sampleInfoIndex < |sampleInfos|;
      PastTheEnd(sampleInfos, sampleInfoIndex, sampleIndex);
    }

    ghost function CurrentRow(): Row
      requires Placed() && sampleInfoIndex < |sampleInfos| && sampleIndex >= 0
      reads this
    {
      RowsOf(sampleInfos[sampleInfoIndex])[sampleIndex]
    }

    /** The current row, or nothing where the program would index out of range. */
    method Values() returns (r: Option<Row>)
      requires sampleInfoIndex < |sampleInfos| && sampleIndex >= 0
      modifies this`minSeen
      ensures r.Some? <==> sampleIndex < |sampleInfos[sampleInfoIndex].samples|
      ensures r.Some? ==> r.value == CurrentRow() && minSeen == if old(minSeen) > r.value.t then r.value.t else old(minSeen)
    {
      var info := sampleInfos[sampleInfoIndex];
      if sampleIndex >= |info.samples| {
        return None;
      }
      var sample := info.samples[sampleIndex];
      if minSeen > sample.t {
        minSeen := sample.t;
      }
      r := Some(Row(sample.t, sample.v, info.seriesId));
    }
  }

  lemma {:induction false} AllRowsCount(infos: seq<SamplesInfo>, i: nat)
    requires i < |infos|
    ensures |AllRows(infos[i..])| == |infos[i].samples| + |AllRows(infos[i + 1..])|
  {
    assert infos[i..][0] == infos[i] && infos[i..][1..] == infos[i + 1..];
  }

  /** How many rows a batch has. */
  method CountSamples(infos: seq<SamplesInfo>) returns (n: nat)
    ensures n == |AllRows(infos)|
  {
    n := 0;
    for i := 0 to |infos|
      invariant n + |AllRows(infos[i..])| == |AllRows(infos)|
    {
      AllRowsCount(infos, i);
      n := n + |infos[i].samples|;
    }
  }

  lemma NoTime()
    ensures MinTime([]) == MAX_INT64
  {
  }

  lemma MinTimeNext(rows: seq<Row>, x: Row)
    ensures MinTime(rows + [x]) == if MinTime(rows) > x.t then x.t else MinTime(rows)
  {
    assert (rows + [x])[..|rows|] == rows;
  }

  lemma Regroup(before: seq<Row>, x: Row, y: Row, rest: seq<Row>)
    ensures before + [x] + ([y] + rest) == before + [x] + [y] + rest
  {
  }

  /** The rows `doInsert` collects: it goes through exactly when no info after the
      first is empty, and then the rows are all those of the batch, in order, so
      that the count it checks is right, and the smallest time has been seen. */
  method CollectRows(it: SampleInfoIterator) returns (ok: bool, rows: seq<Row>)
    requires it.AtStart()
    modifies it`sampleIndex, it`sampleInfoIndex, it`minSeen
    ensures ok <==> Enumerable(it.sampleInfos)
    ensures ok ==> rows == AllRows(it.sampleInfos) && it.minSeen == MinTime(rows)
  {
    hide AllRows, RowsAfter, RowsOf, MinTime;
    assert MinTime([]) == MAX_INT64 by { NoTime(); }
    var numRows := CountSamples(it.sampleInfos);
    it.StartRemaining();
    rows := [];
    var more := it.Next();
    while more
      invariant it.minSeen == MinTime(rows)
      invariant forall k :: 1 <= k < it.sampleInfoIndex && k < |it.sampleInfos| ==> it.sampleInfos[k].samples != []
      invariant more == (it.sampleInfoIndex < |it.sampleInfos|)
      invariant more ==> it.sampleIndex >= 0 && (!it.Placed() ==> it.sampleInfoIndex >= 1 && it.sampleInfos[it.sampleInfoIndex].samples == [])
      invariant more && it.Placed() ==> rows + [it.CurrentRow()] + it.Remaining() == AllRows(it.sampleInfos)
      invariant !more ==> rows == AllRows(it.sampleInfos)
      decreases |it.sampleInfos| - it.sampleInfoIndex, if more then |it.sampleInfos[it.sampleInfoIndex].samples| - it.sampleIndex else 0
    {
      var r := it.Values();
      if r.None? {
        return false, rows;
      }
      MinTimeNext(rows, r.value);
      ghost var before := rows;
      rows := rows + [r.value];
      more := it.Next();
      if more && it.Placed() {
        Regroup(before, r.value, it.CurrentRow(), it.Remaining());
      }
    }
    assert |rows| == numRows;
    ok := true;
  }

  datatype Reply = Inserted | Compressed | OtherError

  const MILLISECOND := 1_000_000
  const MINUTE := 60_000 * MILLISECOND
  const MAX_DELAY := 24 * 60 * MINUTE

  /** How long the next compression is put off, in nanoseconds, for data of the
      given age: half the age, rounded towards zero, and an hour, but at most a day. */
  function DelayBy(age: int): (r: int)
    ensures r <= MAX_DELAY && (age >= 0 ==> r >= 60 * MINUTE)
    ensures r < MAX_DELAY ==> -1 <= 2 * (r - 60 * MINUTE) - age <= 1
    ensures r == MAX_DELAY <==> age >= 2 * (MAX_DELAY - 60 * MINUTE)
  {
    var half := if age >= 0 then age / 2 else -(-age / 2);
    var delay := half + 60 * MINUTE;
    if delay > MAX_DELAY then MAX_DELAY else delay
  }

  /** An insert with its one retry. When the table turns out to be compressed, its
      compression is put off, it is decompressed from the smallest time of the
      batch on, and the same rows are sent again. `now` is in nanoseconds. */
  method InsertWithRetry(it: SampleInfoIterator, now: int, first: Reply, rescheduled: bool, decompressed: bool, second: Reply)
      returns (ok: bool, attempts: seq<seq<Row>>, delay: Option<int>, decompressFrom: Option<int>)
    requires it.AtStart() && Enumerable(it.sampleInfos)
    modifies it`sampleIndex, it`sampleInfoIndex, it`minSeen
    ensures forall i :: 0 <= i < |attempts| ==> attempts[i] == AllRows(it.sampleInfos)
    ensures |attempts| == if first.Compressed? && rescheduled && decompressed then 2 else 1
    ensures delay == if first.Compressed? then Some(DelayBy(now - MinTime(AllRows(it.sampleInfos)) * MILLISECOND)) else None
    // nothing is decompressed while it could be compressed again
    ensures decompressFrom == if first.Compressed? && rescheduled then Some(MinTime(AllRows(it.sampleInfos))) else None
    ensures ok <==> first.Inserted? || (first.Compressed? && rescheduled && decompressed && second.Inserted?)
  {
    var fine, rows := CollectRows(it);
    attempts, delay, decompressFrom := [rows], None, None;
    if !first.Compressed? {
      return first.Inserted?, attempts, delay, decompressFrom;
    }
    delay := Some(DelayBy(now - it.minSeen * MILLISECOND));
    if !rescheduled {
      return false, attempts, delay, decompressFrom;
    }
    decompressFrom := Some(it.minSeen);
    if !decompressed {
      return false, attempts, delay, decompressFrom;
    }
    it.ResetPosition();
    fine, rows := CollectRows(it);
    attempts := attempts + [rows];
    ok := second.Inserted?;
  }

  // ----- grouping a write request by metric -----

  datatype TimeSeries = TimeSeries(labels: seq<(string, string)>, samples: seq<PromSample>)

  /** What a label list stands for: its canonical string and metric name, or an error. */
  datatype LabelResult = LabelSet(str: string, metric: string) | LabelError

  type LabelFn = seq<(string, string)> -> LabelResult

  predicate Usable(ts: TimeSeries, f: LabelFn) {
    f(ts.labels).LabelSet? && f(ts.labels).metric != ""
  }

  /** The sample sets of one metric, in the order of the request; series without samples are skipped. */
  function InfosFor(tts: seq<TimeSeries>, f: LabelFn, metric: string): seq<SamplesInfo> {
    if tts == [] then []
    else
      var init, ts := InfosFor(tts[..|tts| - 1], f, metric), tts[|tts| - 1];
      if ts.samples != [] && Usable(ts, f) && f(ts.labels).metric == metric then
        init + [SamplesInfo(f(ts.labels).str, -1, ts.samples)]
      else init
  }

  function SampleCount(tts: seq<TimeSeries>): nat {
    if tts == [] then 0 else SampleCount(tts[..|tts| - 1]) + |tts[|tts| - 1].samples|
  }

  /** `parseData`: every sample of the request lands in exactly the list of its
      metric. It fails exactly when a series with samples has unusable labels or
      no metric name. */
  method ParseData(tts: seq<TimeSeries>, f: LabelFn) returns (ok: bool, data: map<string, seq<SamplesInfo>>, rows: nat)
    ensures ok <==> forall i :: 0 <= i < |tts| && tts[i].samples != [] ==> Usable(tts[i], f)
    ensures ok ==> rows == SampleCount(tts)
    ensures ok ==> forall m :: (if m in data then data[m] else []) == InfosFor(tts, f, m)
    ensures forall m :: m in data ==> data[m] != []
  {
    data, rows := map[], 0;
    for i := 0 to |tts|
      invariant forall j :: 0 <= j < i && tts[j].samples != [] ==> Usable(tts[j], f)
      invariant rows == SampleCount(tts[..i])
      invariant forall m :: (if m in data then data[m] else []) == InfosFor(tts[..i], f, m)
      invariant forall m :: m in data ==> data[m] != []
    {
      assert tts[..i + 1][..i] == tts[..i];
      var t := tts[i];
      if |t.samples| == 0 {
        continue;
      }
      var labels := f(t.labels);
      if labels.LabelError? || labels.metric == "" {
        return false, map[], rows;
      }
      var info := SamplesInfo(labels.str, -1, t.samples);
      rows := rows + |t.samples|;
      data := data[labels.metric := (if labels.metric in data then data[labels.metric] else []) + [info]];
    }
    assert tts[..|tts|] == tts;
    ok := true;
  }

  lemma {:induction false} InfosNonEmpty(tts: seq<TimeSeries>, f: LabelFn, m: string)
    ensures forall x :: x in InfosFor(tts, f, m) ==> x.samples != []
  {
    if tts != [] {
      InfosNonEmpty(tts[..|tts| - 1], f, m);
    }
  }

  /** The batch of one metric: the sample sets of any number of requests, one after the other. */
  function BatchOf(requests: seq<seq<TimeSeries>>, f: LabelFn, m: string): seq<SamplesInfo> {
    if requests == [] then []
    else BatchOf(requests[..|requests| - 1], f, m) + InfosFor(requests[|requests| - 1], f, m)
  }

  /** What `parseData` produces can be enumerated: a batch made of it, from
      however many requests, never stumbles. */
  lemma {:induction false} ParsedIsEnumerable(requests: seq<seq<TimeSeries>>, f: LabelFn, m: string)
    ensures Enumerable(BatchOf(requests, f, m))
    ensures forall x :: x in BatchOf(requests, f, m) ==> x.samples != []
  {
    if requests != [] {
      ParsedIsEnumerable(requests[..|requests| - 1], f, m);
      InfosNonEmpty(requests[|requests| - 1], f, m);
    }
  }

  // ----- the number of rows is conserved -----

  ghost function RowsIn(metrics: set<string>, count: string -> nat): nat {
    if metrics == {} then 0
    else
      var m :| m in metrics;
      count(m) + RowsIn(metrics - {m}, count)
  }

  /** The order in which metrics are visited does not matter. */
  lemma {:induction false} RowsInAnyOrder(metrics: set<string>, count: string -> nat, m: string)
    requires m in metrics
    ensures RowsIn(metrics, count) == count(m) + RowsIn(metrics - {m}, count)
  {
    var k :| k in metrics && RowsIn(metrics, count) == count(k) + RowsIn(metrics - {k}, count);
    if k != m {
      RowsInAnyOrder(metrics - {k}, count, m);
      RowsInAnyOrder(metrics - {m}, count, k);
      assert metrics - {k} - {m} == metrics - {m} - {k};
    }
  }

  function CountOf(data: map<string, seq<SamplesInfo>>): string -> nat {
    m => if m in data then |AllRows(data[m])| else 0
  }

  /** The count `InsertData` reports. */
  method CountAll(data: map<string, seq<SamplesInfo>>) returns (n: nat)
    ensures n == RowsIn(data.Keys, CountOf(data))
  {
    n := 0;
    var left := data.Keys;
    while left != {}
      invariant left <= data.Keys
      invariant n + RowsIn(left, CountOf(data)) == RowsIn(data.Keys, CountOf(data))
      decreases left
    {
      var m :| m in left;
      var k := CountSamples(data[m]);
      RowsInAnyOrder(left, CountOf(data), m);
      n := n + k;
      left := left - {m};
    }
  }

  lemma {:induction false} AllRowsSnoc(infos: seq<SamplesInfo>, x: SamplesInfo)
    ensures |AllRows(infos + [x])| == |AllRows(infos)| + |x.samples|
  {
    if infos == [] {
      assert [x][1..] == [];
    } else {
      assert (infos + [x])[1..] == infos[1..] + [x];
      AllRowsSnoc(infos[1..], x);
    }
  }

  ghost function Expected(tts: seq<TimeSeries>, f: LabelFn): string -> nat {
    m => |AllRows(InfosFor(tts, f, m))|
  }

  lemma {:induction false} SameCounts(metrics: set<string>, a: string -> nat, b: string -> nat)
    requires forall m :: m in metrics ==> a(m) == b(m)
    ensures RowsIn(metrics, a) == RowsIn(metrics, b)
  {
    if metrics != {} {
      var m :| m in metrics;
      RowsInAnyOrder(metrics, a, m);
      RowsInAnyOrder(metrics, b, m);
      SameCounts(metrics - {m}, a, b);
    }
  }

  lemma {:induction false} NoRows(metrics: set<string>, count: string -> nat)
    requires forall m :: m in metrics ==> count(m) == 0
    ensures RowsIn(metrics, count) == 0
  {
    if metrics != {} {
      var m :| m in metrics;
      RowsInAnyOrder(metrics, count, m);
      NoRows(metrics - {m}, count);
    }
  }

  /** Every sample is counted for exactly one metric. */
  lemma {:induction false} ExpectedTotal(tts: seq<TimeSeries>, f: LabelFn, metrics: set<string>)
    requires forall i :: 0 <= i < |tts| && tts[i].samples != [] ==> Usable(tts[i], f) && f(tts[i].labels).metric in metrics
    ensures RowsIn(metrics, Expected(tts, f)) == SampleCount(tts)
  {
    if tts == [] {
      NoRows(metrics, Expected(tts, f));
    } else {
      var init, ts := tts[..|tts| - 1], tts[|tts| - 1];
      ExpectedTotal(init, f, metrics);
      var before, after := Expected(init, f), Expected(tts, f);
      if ts.samples == [] {
        SameCounts(metrics, before, after);
      } else {
        var m0 := f(ts.labels).metric;
        AllRowsSnoc(InfosFor(init, f, m0), SamplesInfo(f(ts.labels).str, -1, ts.samples));
        RowsInAnyOrder(metrics, before, m0);
        RowsInAnyOrder(metrics, after, m0);
        SameCounts(metrics - {m0}, before, after);
      }
    }
  }

  lemma {:induction false} MetricPresent(tts: seq<TimeSeries>, f: LabelFn, i: nat)
    requires i < |tts| && tts[i].samples != [] && Usable(tts[i], f)
    ensures InfosFor(tts, f, f(tts[i].labels).metric) != []
  {
    if i < |tts| - 1 {
      MetricPresent(tts[..|tts| - 1], f, i);
    }
  }

  /** The rows counted for insertion are the samples of the request, so the check after inserting cannot fail. */
  method ParseAndCount(tts: seq<TimeSeries>, f: LabelFn) returns (ok: bool, expected: nat, counted: nat)
    ensures ok <==> forall i :: 0 <= i < |tts| && tts[i].samples != [] ==> Usable(tts[i], f)
    ensures ok ==> counted == expected == SampleCount(tts)
  {
    var data;
    ok, data, expected := ParseData(tts, f);
    if !ok {
      return false, 0, 0;
    }
    counted := CountAll(data);
    forall i | 0 <= i < |tts| && tts[i].samples != [] ensures f(tts[i].labels).metric in data {
      MetricPresent(tts, f, i);
    }
    ExpectedTotal(tts, f, data.Keys);
    SameCounts(data.Keys, CountOf(data), Expected(tts, f));
  }

  /** The rows of a batch are those of its infos one after the other. */
  lemma {:induction false} AllRowsJoin(a: seq<SamplesInfo>, b: seq<SamplesInfo>)
    ensures AllRows(a + b) == AllRows(a) + AllRows(b)
  {
    if a == [] {
      assert a + b == b;
    } else {
      assert (a + b)[1..] == a[1..] + b;
      AllRowsJoin(a[1..], b);
    }
  }

  /** Each sample makes one row with the series id of its info, in order. */
  lemma RowAt(a: seq<SamplesInfo>, info: SamplesInfo, b: seq<SamplesInfo>, j: nat)
    requires j < |info.samples|
    ensures var rows, i := AllRows(a + [info] + b), |AllRows(a)| + j;
      i < |rows| && rows[i] == Row(info.samples[j].t, info.samples[j].v, info.seriesId)
  {
    hide AllRows, RowsOf;
    AllRowsJoin(a + [info], b);
    AllRowsJoin(a, [info]);
    RowsOfOne(info);
  }

  lemma RowsOfOne(info: SamplesInfo)
    ensures AllRows([info]) == RowsOf(info)
  {
    assert [info][1..] == [];
    assert AllRows([info]) == RowsOf(info) + AllRows([]);
  }

  /** What a series of a request adds to the list of a metric. */
  function AddedBy(ts: TimeSeries, f: LabelFn, metric: string): seq<SamplesInfo> {
    match f(ts.labels)
    case LabelError => []
    case LabelSet(str, m) => if ts.samples != [] && m != "" && m == metric then [SamplesInfo(str, -1, ts.samples)] else []
  }

  lemma InfosNext(a: seq<TimeSeries>, ts: TimeSeries, f: LabelFn, metric: string)
    ensures InfosFor(a + [ts], f, metric) == InfosFor(a, f, metric) + AddedBy(ts, f, metric)
  {
    assert (a + [ts])[..|a + [ts]| - 1] == a;
  }

  lemma InfosOfNone(f: LabelFn, metric: string)
    ensures InfosFor([], f, metric) == []
  {
  }

  /** The list of a metric is what its series add, in the order of the request. */
  lemma {:induction false} InfosMean(a: seq<TimeSeries>, b: seq<TimeSeries>, f: LabelFn, metric: string)
    ensures InfosFor([], f, metric) == []
    ensures b != [] ==> InfosFor(a + b, f, metric) == InfosFor(a + b[..|b| - 1], f, metric) + AddedBy(b[|b| - 1], f, metric)
    ensures InfosFor(a + b, f, metric) == InfosFor(a, f, metric) + InfosFor(b, f, metric)
    decreases |b|
  {
    hide AddedBy, InfosFor;
    assert InfosFor([], f, metric) == [] by { InfosOfNone(f, metric); }
    if b == [] {
      assert a + b == a;
    } else {
      var n := |b| - 1;
      InfosMean(a, b[..n], f, metric);
      assert a + b == (a + b[..n]) + [b[n]] && b == b[..n] + [b[n]];
      InfosNext(a + b[..n], b[n], f, metric);
      InfosNext(b[..n], b[n], f, metric);
    }
  }
}
