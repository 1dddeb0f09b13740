/** The ingest pipeline as a step relation: callers of `InsertData`, one routine
    per metric, a pool of copiers, and the channels, wait groups and recycled
    buffers between them. Runs before `Close`, with synchronous acks. */
module Ingest {
  import opened Common

  type CallId = nat
  type BufId = nat
  type Metric = string
  type Error = string
  datatype Row = Row(series: int, t: int, v: real)

  /** One metric's share of a call: every call has one for each of its metrics. */
  datatype Req = Req(call: CallId, metric: Metric, rows: seq<Row>)

  /** The error channel of a call: room for one error. */
  datatype ErrChan = ErrChan(slot: Option<Error>, closed: bool)

  datatype Call = Call(
    rows: map<Metric, seq<Row>>,
    // metrics whose request has not been sent, and the one whose inserter has been looked up
    unsent: set<Metric>,
    ready: Option<Metric>,
    // the wait group
    unfinished: int,
    errs: ErrChan,
    // what InsertData returned: no error, or one
    returned: Option<Option<Error>>)

  datatype Buffer = Buffer(tasks: seq<Req>, rows: seq<Row>)

  /** `reportResults` in progress over a buffer: the outcome being reported, and
      whether it has been offered for the first remaining task. */
  datatype Report = Report(err: Option<Error>, offered: bool)

  datatype Routine =
    // looking up the table; errors go to the call that started the routine
    | Starting(call: CallId)
    // the table could not be had; every request fails with the same error
    | Failing(err: Error, taken: Option<Req>)
    // collecting requests in a buffer
    | Receiving(buf: BufId)
    // the buffer has been handed over and a new one is needed
    | Emptied
    // setting series ids failed, and that is being reported
    | Rejecting(buf: BufId)

  datatype Copier =
    | Idle
    | Inserting(buf: BufId, table: Metric)
    | Reporting(buf: BufId, table: Metric)

  datatype Batch = Batch(buf: BufId, table: Metric)

  /** Where a buffer is, and where a request is: what the invariants are about. */
  datatype Owner = Pooled | Handler(table: Metric) | InChannel(table: Metric) | HeldBy(copier: nat, table: Metric)
  datatype Place = Unsent | Queued | InBuffer(buf: BufId) | Taken | Finished(err: Option<Error>)

  datatype State = State(
    calls: map<CallId, Call>,
    // request channels by metric, and the routines reading them
    inputs: map<Metric, seq<Req>>,
    routines: map<Metric, Routine>,
    toCopiers: seq<Batch>,
    copiers: map<nat, Copier>,
    pool: set<BufId>,
    buffers: map<BufId, Buffer>,
    reports: map<BufId, Report>,
    // rows by table; an insert leaves rows that are already there alone
    db: set<(Metric, Row)>,
    // a send on a closed channel or a negative wait group
    panicked: bool,
    // history
    owner: map<BufId, Owner>,
    place: map<Req, Place>)

  const INPUT_CAPACITY := 1000

  function TableRows(table: Metric, rows: seq<Row>): set<(Metric, Row)> {
    set x | x in rows :: (table, x)
  }

  /** A non-blocking send of an error: dropped if there is one already. */
  function Offer(s: State, c: CallId, err: Error): State
    requires c in s.calls
  {
    var call := s.calls[c];
    s.(calls := if call.errs.closed || call.errs.slot.Some? then s.calls else s.calls[c := call.(errs := ErrChan(Some(err), false))],
       panicked := s.panicked || call.errs.closed)
  }

  /** `finished.Done()` for a request, with the outcome it had. */
  function Finish(s: State, r: Req, err: Option<Error>): State
    requires r.call in s.calls
  {
    var call := s.calls[r.call];
    s.(calls := s.calls[r.call := call.(unfinished := call.unfinished - 1)],
       panicked := s.panicked || call.unfinished == 0,
       place := s.place[r := Finished(err)])
  }

  // ----- callers -----

  predicate CanStartCall(s: State, c: CallId) {
    c !in s.calls
  }

  function StartCall(s: State, c: CallId, rows: map<Metric, seq<Row>>): State {
    s.(calls := s.calls[c := Call(rows, rows.Keys, None, |rows|, ErrChan(None, false), None)],
       place := s.place + map m | m in rows :: Req(c, m, rows[m]) := Unsent)
  }

  predicate CanLookUp(s: State, c: CallId, m: Metric) {
    c in s.calls && s.calls[c].ready.None? && m in s.calls[c].unsent
  }

  /** `getMetricInserter`: the first to ask for a metric starts its routine. */
  function LookUp(s: State, c: CallId, m: Metric): State
    requires CanLookUp(s, c, m)
  {
    var s1 := s.(calls := s.calls[c := s.calls[c].(ready := Some(m))]);
    if m in s.inputs then s1
    else s1.(inputs := s.inputs[m := []], routines := s.routines[m := Starting(c)])
  }

  predicate CanSend(s: State, c: CallId) {
    && c in s.calls && s.calls[c].ready.Some?
    && s.calls[c].ready.value in s.inputs && s.calls[c].ready.value in s.calls[c].rows
    && |s.inputs[s.calls[c].ready.value]| < INPUT_CAPACITY
  }

  function Send(s: State, c: CallId): State
    requires CanSend(s, c)
  {
    var call := s.calls[c];
    var m := call.ready.value;
    var r := Req(c, m, call.rows[m]);
    s.(calls := s.calls[c := call.(ready := None, unsent := call.unsent - {m})],
       inputs := s.inputs[m := s.inputs[m] + [r]],
       place := s.place[r := Queued])
  }

  predicate CanReturn(s: State, c: CallId) {
    && c in s.calls && s.calls[c].returned.None? && s.calls[c].unsent == {} && s.calls[c].ready.None?
    && s.calls[c].unfinished == 0
  }

  /** After the wait group: take an error if there is one, and close the channel. */
  function Return(s: State, c: CallId): State
    requires CanReturn(s, c)
  {
    var call := s.calls[c];
    s.(calls := s.calls[c := call.(errs := ErrChan(None, true), returned := Some(call.errs.slot))])
  }

  // ----- routines -----

  predicate CanTakeBuffer(s: State, m: Metric, b: BufId) {
    m in s.routines && (s.routines[m].Starting? || s.routines[m].Emptied?) && (b in s.pool || b !in s.buffers)
  }

  /** A routine that has its table, or has handed its buffer over, gets a pooled buffer or a new one. */
  function TakeBuffer(s: State, m: Metric, b: BufId): State
    requires CanTakeBuffer(s, m, b)
  {
    s.(routines := s.routines[m := Receiving(b)], pool := s.pool - {b},
       buffers := s.buffers[b := if b in s.buffers then s.buffers[b] else Buffer([], [])],
       owner := s.owner[b := Handler(m)])
  }

  predicate CanStartFail(s: State, m: Metric) {
    m in s.routines && s.routines[m].Starting? && s.routines[m].call in s.calls
  }

  function StartFail(s: State, m: Metric, err: Error): State
    requires CanStartFail(s, m)
  {
    Offer(s, s.routines[m].call, err).(routines := s.routines[m := Failing(err, None)])
  }

  predicate CanFailTake(s: State, m: Metric) {
    && m in s.routines && s.routines[m].Failing? && s.routines[m].taken.None?
    && m in s.inputs && s.inputs[m] != [] && s.inputs[m][0].call in s.calls
  }

  function FailTake(s: State, m: Metric): State
    requires CanFailTake(s, m)
  {
    var r, err := s.inputs[m][0], s.routines[m].err;
    Offer(s, r.call, err).(inputs := s.inputs[m := s.inputs[m][1..]],
                           routines := s.routines[m := Failing(err, Some(r))],
                           place := s.place[r := Taken])
  }

  predicate CanFailDone(s: State, m: Metric) {
    m in s.routines && s.routines[m].Failing? && s.routines[m].taken.Some? && s.routines[m].taken.value.call in s.calls
  }

  function FailDone(s: State, m: Metric): State
    requires CanFailDone(s, m)
  {
    Finish(s, s.routines[m].taken.value, Some(s.routines[m].err)).(routines := s.routines[m := Failing(s.routines[m].err, None)])
  }

  predicate CanReceive(s: State, m: Metric) {
    m in s.routines && s.routines[m].Receiving? && s.routines[m].buf in s.buffers && m in s.inputs && s.inputs[m] != []
  }

  /** `handleReq`: the request and its rows join the pending buffer. */
  function Receive(s: State, m: Metric): State
    requires CanReceive(s, m)
  {
    var b, r := s.routines[m].buf, s.inputs[m][0];
    var buf := s.buffers[b];
    s.(inputs := s.inputs[m := s.inputs[m][1..]],
       buffers := s.buffers[b := Buffer(buf.tasks + [r], buf.rows + r.rows)],
       place := s.place[r := InBuffer(b)])
  }

  predicate CanFlush(s: State, m: Metric) {
    m in s.routines && s.routines[m].Receiving? && s.routines[m].buf in s.buffers && s.buffers[s.routines[m].buf].rows != []
  }

  predicate CanHandOver(s: State, m: Metric) {
    CanFlush(s, m) && |s.toCopiers| < |s.copiers|
  }

  /** `flushPending` after the series ids are set. */
  function HandOver(s: State, m: Metric): State
    requires CanHandOver(s, m)
  {
    var b := s.routines[m].buf;
    s.(routines := s.routines[m := Emptied], toCopiers := s.toCopiers + [Batch(b, m)], owner := s.owner[b := InChannel(m)])
  }

  /** `flushPending` when setting the series ids fails. */
  function Reject(s: State, m: Metric, err: Error): State
    requires CanFlush(s, m)
  {
    var b := s.routines[m].buf;
    s.(routines := s.routines[m := Rejecting(b)], reports := s.reports[b := Report(Some(err), false)])
  }

  predicate CanRejectEnd(s: State, m: Metric) {
    m in s.routines && s.routines[m].Rejecting? && s.routines[m].buf in s.buffers && s.buffers[s.routines[m].buf].tasks == []
  }

  /** The report is over: the routine goes on with its buffer, cleared. */
  function RejectEnd(s: State, m: Metric): State
    requires CanRejectEnd(s, m)
  {
    var b := s.routines[m].buf;
    s.(routines := s.routines[m := Receiving(b)], buffers := s.buffers[b := Buffer([], [])], reports := s.reports - {b})
  }

  // ----- reporting results -----

  predicate HasTask(s: State, b: BufId) {
    b in s.buffers && s.buffers[b].tasks != [] && s.buffers[b].tasks[0].call in s.calls
  }

  predicate CanOfferFirst(s: State, b: BufId) {
    b in s.reports && HasTask(s, b) && s.reports[b].err.Some? && !s.reports[b].offered
  }

  function OfferFirst(s: State, b: BufId): State
    requires CanOfferFirst(s, b)
  {
    Offer(s, s.buffers[b].tasks[0].call, s.reports[b].err.value).(reports := s.reports[b := s.reports[b].(offered := true)])
  }

  predicate CanFinishFirst(s: State, b: BufId) {
    b in s.reports && HasTask(s, b) && (s.reports[b].err.None? || s.reports[b].offered)
  }

  function FinishFirst(s: State, b: BufId): State
    requires CanFinishFirst(s, b)
  {
    var buf := s.buffers[b];
    Finish(s, buf.tasks[0], s.reports[b].err).(buffers := s.buffers[b := buf.(tasks := buf.tasks[1..])],
                                               reports := s.reports[b := s.reports[b].(offered := false)])
  }

  // ----- copiers -----

  predicate CanCopierTake(s: State, k: nat) {
    k in s.copiers && s.copiers[k].Idle? && s.toCopiers != []
  }

  function CopierTake(s: State, k: nat): State
    requires CanCopierTake(s, k)
  {
    var batch := s.toCopiers[0];
    s.(copiers := s.copiers[k := Inserting(batch.buf, batch.table)], toCopiers := s.toCopiers[1..],
       owner := s.owner[batch.buf := HeldBy(k, batch.table)])
  }

  predicate CanInsert(s: State, k: nat) {
    k in s.copiers && s.copiers[k].Inserting? && s.copiers[k].buf in s.buffers
  }

  /** The insert, with its retry: either the whole batch is in the table, or there is an error. */
  function Insert(s: State, k: nat, outcome: Option<Error>): State
    requires CanInsert(s, k)
  {
    var b, t := s.copiers[k].buf, s.copiers[k].table;
    s.(copiers := s.copiers[k := Reporting(b, t)], reports := s.reports[b := Report(outcome, false)],
       db := if outcome.Some? then s.db else s.db + TableRows(t, s.buffers[b].rows))
  }

  predicate CanReportEnd(s: State, k: nat) {
    k in s.copiers && s.copiers[k].Reporting? && s.copiers[k].buf in s.buffers && s.buffers[s.copiers[k].buf].tasks == []
  }

  /** The report is over: the buffer is cleared and pooled. */
  function ReportEnd(s: State, k: nat): State
    requires CanReportEnd(s, k)
  {
    var b := s.copiers[k].buf;
    s.(copiers := s.copiers[k := Idle], buffers := s.buffers[b := Buffer([], [])], reports := s.reports - {b},
       pool := s.pool + {b}, owner := s.owner[b := Pooled])
  }

  // ----- runs -----

  ghost predicate CallerStep(s: State, s': State) {
    || (exists c, rows :: CanStartCall(s, c) && s' == StartCall(s, c, rows))
    || (exists c, m :: CanLookUp(s, c, m) && s' == LookUp(s, c, m))
    || (exists c :: CanSend(s, c) && s' == Send(s, c))
    || (exists c :: CanReturn(s, c) && s' == Return(s, c))
  }

  ghost predicate RoutineStep(s: State, s': State) {
    || (exists m, b :: CanTakeBuffer(s, m, b) && s' == TakeBuffer(s, m, b))
    || (exists m, err :: CanStartFail(s, m) && s' == StartFail(s, m, err))
    || (exists m :: CanFailTake(s, m) && s' == FailTake(s, m))
    || (exists m :: CanFailDone(s, m) && s' == FailDone(s, m))
    || (exists m :: CanReceive(s, m) && s' == Receive(s, m))
    || (exists m :: CanHandOver(s, m) && s' == HandOver(s, m))
    || (exists m, err :: CanFlush(s, m) && s' == Reject(s, m, err))
    || (exists m :: CanRejectEnd(s, m) && s' == RejectEnd(s, m))
  }

  /** Reporting is done by copiers and by rejecting routines alike. */
  ghost predicate CopierStep(s: State, s': State) {
    || (exists b :: CanOfferFirst(s, b) && s' == OfferFirst(s, b))
    || (exists b :: CanFinishFirst(s, b) && s' == FinishFirst(s, b))
    || (exists k :: CanCopierTake(s, k) && s' == CopierTake(s, k))
    || (exists k, outcome :: CanInsert(s, k) && s' == Insert(s, k, outcome))
    || (exists k :: CanReportEnd(s, k) && s' == ReportEnd(s, k))
  }

  ghost predicate Next(s: State, s': State) {
    CallerStep(s, s') || RoutineStep(s, s') || CopierStep(s, s')
  }

  /** No calls yet and every copier waiting. */
  ghost predicate Init(s: State) {
    && s.calls == map[] && s.inputs == map[] && s.routines == map[] && s.toCopiers == [] && s.pool == {}
    && s.buffers == map[] && s.reports == map[] && s.owner == map[] && s.place == map[] && !s.panicked
    && forall k :: k in s.copiers ==> s.copiers[k] == Idle
  }

  ghost predicate IsRun(run: seq<State>) {
    && run != [] && Init(run[0])
    && forall i :: 0 <= i < |run| - 1 ==> Next(run[i], run[i + 1])
  }
}
